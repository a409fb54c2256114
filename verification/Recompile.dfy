/** Renaming element ids throughout a model, and restoring original ids from qualified names. */
module Recompile {
  import opened Wrappers
  import opened ElementKinds
  import opened ModelGraph

  function Renamed(m: map<Id, Id>, x: Id): Id {
    if x in m then m[x] else x
  }

  function RenamedAll(m: map<Id, Id>, s: seq<Id>): (r: seq<Id>)
    ensures |r| == |s| && forall i :: 0 <= i < |s| ==> r[i] == Renamed(m, s[i])
  {
    seq(|s|, i requires 0 <= i < |s| => Renamed(m, s[i]))
  }

  function RenamedOption(m: map<Id, Id>, o: Option<Id>): Option<Id> {
    if o.Some? then Some(Renamed(m, o.value)) else None
  }

  /** An element under its new id with owner and owned ids renamed; edges come in a second pass. */
  function RenamedOwnership(m: map<Id, Id>, e: Element): Element {
    e.(id := Renamed(m, e.id), owner := RenamedOption(m, e.owner), owned := RenamedAll(m, e.owned))
  }

  function RenamedEdges(m: map<Id, Id>, e: Element): Element {
    if e.relationship.None? then e
    else
      var edge := e.relationship.value;
      e.(relationship := Some(RelationshipData(RenamedAll(m, edge.source), RenamedAll(m, edge.target))))
  }

  function RenamedElement(m: map<Id, Id>, e: Element): Element {
    RenamedEdges(m, RenamedOwnership(m, e))
  }

  /** The first `n` elements re-inserted under their new ids. */
  function RenamedKeys(m: map<Id, Id>, g: Graph, n: nat): Graph
    requires n <= |g.order|
  {
    if n == 0 then Graph([], map[], g.roots)
    else
      var before := RenamedKeys(m, g, n - 1);
      var id := g.order[n - 1];
      if id in g.elements then before.Insert(RenamedOwnership(m, g.elements[id].(id := id))) else before
  }

  function ApplyMapping(m: map<Id, Id>, g: Graph): Graph {
    var keyed := RenamedKeys(m, g, |g.order|);
    Graph(keyed.order, RenamedEdgesOf(m, keyed.elements), RenamedAll(m, g.roots))
  }

  function RenamedEdgesOf(m: map<Id, Id>, elements: map<Id, Element>): map<Id, Element> {
    map id | id in elements :: RenamedEdges(m, elements[id])
  }

  /** Content elements whose qualified name has an original id, mapped to it: the first `n` elements. */
  function IdMappingUpTo(g: Graph, originals: map<string, Id>, n: nat): map<Id, Id>
    requires Acyclic(g) && n <= |g.order|
  {
    if n == 0 then map[]
    else
      var before, id := IdMappingUpTo(g, originals, n - 1), g.order[n - 1];
      if IsContentIn(g, id) && ComputeQualifiedName(g, id) in originals
      then before[id := originals[ComputeQualifiedName(g, id)]]
      else before
  }

  function IdMapping(g: Graph, originals: map<string, Id>): map<Id, Id>
    requires Acyclic(g)
  {
    IdMappingUpTo(g, originals, |g.order|)
  }

  function RestoreIds(g: Graph, originals: map<string, Id>): Graph
    requires Acyclic(g)
  {
    ApplyMapping(IdMapping(g, originals), g)
  }

  // ---------------------------------------------------------------------------------------------
  // Renaming is an isomorphism
  // ---------------------------------------------------------------------------------------------

  /** An id that the model mentions: as a key, a root, an ownership link or an edge endpoint. */
  ghost predicate Mentioned(g: Graph, x: Id) {
    || x in g.elements || x in g.roots
    || exists y :: y in g.elements && MentionedBy(g.elements[y], x)
  }

  ghost predicate MentionedBy(e: Element, x: Id) {
    || e.owner == Some(x) || x in e.owned
    || (e.relationship.Some? && (x in e.relationship.value.source || x in e.relationship.value.target))
  }

  /** No two keys receive the same new id. */
  ghost predicate KeysStayApart(m: map<Id, Id>, g: Graph) {
    forall x, y :: x in g.elements && y in g.elements && x != y ==> Renamed(m, x) != Renamed(m, y)
  }

  lemma {:induction false} RenamedKeysPreimage(m: map<Id, Id>, g: Graph, n: nat, k: Id) returns (i: nat)
    requires WellKeyed(g) && n <= |g.order| && k in RenamedKeys(m, g, n).elements
    ensures i < n && k == Renamed(m, g.order[i])
  {
    assert g.order[n - 1] in g.order;
    if k == Renamed(m, g.order[n - 1]) {
      i := n - 1;
    } else {
      i := RenamedKeysPreimage(m, g, n - 1, k);
    }
  }

  lemma {:induction false} RenamedKeysAt(m: map<Id, Id>, g: Graph, n: nat, i: nat)
    requires WellKeyed(g) && KeysStayApart(m, g) && i < n <= |g.order|
    ensures var h, k := RenamedKeys(m, g, n), Renamed(m, g.order[i]);
      k in h.elements && h.elements[k] == RenamedOwnership(m, g.elements[g.order[i]])
  {
    assert g.order[n - 1] in g.order && g.order[i] in g.order;
    if i < n - 1 {
      RenamedKeysAt(m, g, n - 1, i);
      assert g.order[i] != g.order[n - 1];
    }
  }

  lemma RenamedKeyIsNew(m: map<Id, Id>, g: Graph, n: nat)
    requires WellKeyed(g) && KeysStayApart(m, g) && n < |g.order|
    ensures Renamed(m, g.order[n]) !in RenamedKeys(m, g, n).elements
  {
    assert forall i :: 0 <= i <= n ==> g.order[i] in g.order;
    assert forall i :: 0 <= i < n ==> Renamed(m, g.order[i]) != Renamed(m, g.order[n]);
    if Renamed(m, g.order[n]) in RenamedKeys(m, g, n).elements {
      var i := RenamedKeysPreimage(m, g, n, Renamed(m, g.order[n]));
      assert false;
    }
  }

  lemma RenamedKeysNext(m: map<Id, Id>, g: Graph, n: nat)
    requires WellKeyed(g) && n < |g.order| && Renamed(m, g.order[n]) !in RenamedKeys(m, g, n).elements
    ensures RenamedKeys(m, g, n + 1).order == RenamedKeys(m, g, n).order + [Renamed(m, g.order[n])]
  {
    assert g.order[n] in g.order;
  }

  lemma RenamedAllNext(m: map<Id, Id>, order: seq<Id>, n: nat)
    requires n < |order|
    ensures RenamedAll(m, order[..n + 1]) == RenamedAll(m, order[..n]) + [Renamed(m, order[n])]
  {
  }

  lemma {:induction false} RenamedKeysOrder(m: map<Id, Id>, g: Graph, n: nat)
    requires WellKeyed(g) && KeysStayApart(m, g) && n <= |g.order|
    ensures RenamedKeys(m, g, n).order == RenamedAll(m, g.order[..n])
  {
    hide WellKeyed, KeysStayApart;
    if n == 0 {
      assert g.order[..0] == [];
    } else {
      hide RenamedAll;
      RenamedKeysOrder(m, g, n - 1);
      RenamedKeyIsNew(m, g, n - 1);
      RenamedKeysNext(m, g, n - 1);
      RenamedAllNext(m, g.order, n - 1);
    }
  }

  lemma RenamedAt(m: map<Id, Id>, g: Graph, x: Id)
    requires WellKeyed(g) && KeysStayApart(m, g) && x in g.elements
    ensures var h := ApplyMapping(m, g);
      Renamed(m, x) in h.elements && h.elements[Renamed(m, x)] == RenamedElement(m, g.elements[x])
  {
    assert x in g.order;
    var i :| 0 <= i < |g.order| && g.order[i] == x;
    RenamedKeysAt(m, g, |g.order|, i);
  }

  lemma RenamedFrom(m: map<Id, Id>, g: Graph, k: Id) returns (x: Id)
    requires WellKeyed(g) && k in ApplyMapping(m, g).elements
    ensures x in g.elements && k == Renamed(m, x)
  {
    var i := RenamedKeysPreimage(m, g, |g.order|, k);
    x := g.order[i];
    assert x in g.order;
  }

  lemma RenamedKeysListed(m: map<Id, Id>, g: Graph, k: Id)
    requires WellKeyed(g) && KeysStayApart(m, g)
    ensures var h := ApplyMapping(m, g);
      (k in RenamedAll(m, g.order) <==> k in h.elements) && (k in h.elements ==> h.elements[k].id == k)
  {
    var order := RenamedAll(m, g.order);
    if k in ApplyMapping(m, g).elements {
      var x := RenamedFrom(m, g, k);
      RenamedAt(m, g, x);
      assert x in g.order;
      var i :| 0 <= i < |g.order| && g.order[i] == x;
      assert order[i] == k;
    }
    if k in order {
      var i :| 0 <= i < |order| && order[i] == k;
      assert g.order[i] in g.order;
      RenamedAt(m, g, g.order[i]);
    }
  }

  lemma RenamedLists(m: map<Id, Id>, g: Graph)
    requires WellKeyed(g) && KeysStayApart(m, g)
    ensures var h := ApplyMapping(m, g);
      h.order == RenamedAll(m, g.order) && h.roots == RenamedAll(m, g.roots) && WellKeyed(h)
  {
    RenamedKeysOrder(m, g, |g.order|);
    assert g.order[..|g.order|] == g.order;
    var h := ApplyMapping(m, g);
    assert NoDuplicates(h.order) by {
      assert forall i :: 0 <= i < |g.order| ==> g.order[i] in g.order;
    }
    forall k ensures (k in h.order <==> k in h.elements) && (k in h.elements ==> h.elements[k].id == k) {
      RenamedKeysListed(m, g, k);
    }
  }

  /** Under a renaming that keeps keys apart, the renamed model is isomorphic to the original: the same number
      of elements in the same order, with ids, owners, owned lists, roots and edge endpoints all renamed. */
  lemma ApplyMappingIsIsomorphic(m: map<Id, Id>, g: Graph)
    requires WellKeyed(g) && KeysStayApart(m, g)
    ensures var h := ApplyMapping(m, g);
      && WellKeyed(h) && |h.order| == |g.order|
      && h.order == RenamedAll(m, g.order) && h.roots == RenamedAll(m, g.roots)
      && (forall x :: x in g.elements ==> Renamed(m, x) in h.elements)
      && (forall x :: x in g.elements ==> h.elements[Renamed(m, x)] == RenamedElement(m, g.elements[x]))
      && (forall k :: k in h.elements ==> exists x :: x in g.elements && k == Renamed(m, x))
  {
    RenamedLists(m, g);
    var h := ApplyMapping(m, g);
    forall x | x in g.elements
      ensures Renamed(m, x) in h.elements && h.elements[Renamed(m, x)] == RenamedElement(m, g.elements[x])
    {
      RenamedAt(m, g, x);
    }
    forall k | k in h.elements ensures exists x :: x in g.elements && k == Renamed(m, x) {
      var x := RenamedFrom(m, g, k);
    }
  }

  /** An id becomes the one it is mapped to, or stays. */
  ghost predicate IsNewId(m: map<Id, Id>, x: Id, y: Id) {
    if x in m then y == m[x] else y == x
  }

  ghost predicate AreNewIds(m: map<Id, Id>, s: seq<Id>, t: seq<Id>) {
    |t| == |s| && forall i :: 0 <= i < |s| ==> IsNewId(m, s[i], t[i])
  }

  /** The element's own id, its owner, what it owns and both ends of its edge are renamed, and nothing else. */
  ghost predicate IsRenaming(m: map<Id, Id>, e: Element, f: Element) {
    && f == e.(id := f.id, owner := f.owner, owned := f.owned, relationship := f.relationship)
    && IsNewId(m, e.id, f.id)
    && (match e.owner case None => f.owner.None? case Some(x) => f.owner.Some? && IsNewId(m, x, f.owner.value))
    && AreNewIds(m, e.owned, f.owned)
    && (match e.relationship
        case None => f.relationship.None?
        case Some(edge) => f.relationship.Some? && AreNewIds(m, edge.source, f.relationship.value.source)
                           && AreNewIds(m, edge.target, f.relationship.value.target))
  }

  lemma RenamedElementIsRenaming(m: map<Id, Id>, e: Element)
    ensures IsRenaming(m, e, RenamedElement(m, e))
  {
  }

  /** Element by element, in order: every mention of an id, wherever it is, is renamed, and nothing else changes. */
  lemma EveryMentionIsRenamed(m: map<Id, Id>, g: Graph, i: nat)
    requires WellKeyed(g) && KeysStayApart(m, g) && i < |g.order|
    ensures g.order[i] in g.elements
    ensures var h := ApplyMapping(m, g);
      && AreNewIds(m, g.order, h.order) && AreNewIds(m, g.roots, h.roots)
      && h.order[i] in h.elements && IsRenaming(m, g.elements[g.order[i]], h.elements[h.order[i]])
  {
    hide RenamedElement, IsRenaming, KeysStayApart, ApplyMapping, AreNewIds;
    assert g.order[i] in g.order;
    hide WellKeyed;
    RenamedLists(m, g);
    RenamedAt(m, g, g.order[i]);
    RenamedElementIsRenaming(m, g.elements[g.order[i]]);
    RenamedAllAreNew(m, g.order);
    RenamedAllAreNew(m, g.roots);
  }

  lemma RenamedAllAreNew(m: map<Id, Id>, s: seq<Id>)
    ensures AreNewIds(m, s, RenamedAll(m, s))
  {
  }

  // ---------------------------------------------------------------------------------------------
  // Undoing a renaming
  // ---------------------------------------------------------------------------------------------

  /** Renaming by `r` takes every mentioned id back to where it was before `m`. */
  ghost predicate TakesBack(r: map<Id, Id>, m: map<Id, Id>, g: Graph) {
    forall x :: Mentioned(g, x) ==> Renamed(r, Renamed(m, x)) == x
  }

  lemma RenamedAllBack(r: map<Id, Id>, m: map<Id, Id>, s: seq<Id>)
    requires forall x :: x in s ==> Renamed(r, Renamed(m, x)) == x
    ensures RenamedAll(r, RenamedAll(m, s)) == s
  {
  }

  lemma RenamedElementBack(r: map<Id, Id>, m: map<Id, Id>, g: Graph, x: Id)
    requires WellKeyed(g) && TakesBack(r, m, g) && x in g.elements
    ensures RenamedElement(r, RenamedElement(m, g.elements[x])) == g.elements[x]
  {
    var e := g.elements[x];
    forall y | MentionedBy(e, y) ensures Renamed(r, Renamed(m, y)) == y {
      assert Mentioned(g, y);
    }
    assert Mentioned(g, x);
    RenamedAllBack(r, m, e.owned);
    if e.relationship.Some? {
      RenamedAllBack(r, m, e.relationship.value.source);
      RenamedAllBack(r, m, e.relationship.value.target);
    }
  }

  lemma TakesBackKeepsApart(r: map<Id, Id>, m: map<Id, Id>, g: Graph)
    requires WellKeyed(g) && TakesBack(r, m, g)
    ensures KeysStayApart(m, g) && KeysStayApart(r, ApplyMapping(m, g)) && WellKeyed(ApplyMapping(m, g))
  {
    assert forall x :: x in g.elements ==> Mentioned(g, x);
    RenamedLists(m, g);
    var h := ApplyMapping(m, g);
    forall j, k | j in h.elements && k in h.elements && j != k ensures Renamed(r, j) != Renamed(r, k) {
      var x := RenamedFrom(m, g, j);
      var y := RenamedFrom(m, g, k);
    }
  }

  lemma RenamedBackAt(r: map<Id, Id>, m: map<Id, Id>, g: Graph, x: Id)
    requires WellKeyed(g) && TakesBack(r, m, g)
    ensures var back := ApplyMapping(r, ApplyMapping(m, g));
      && (x in back.elements <==> x in g.elements)
      && (x in g.elements ==> back.elements[x] == g.elements[x])
  {
    TakesBackKeepsApart(r, m, g);
    var h := ApplyMapping(m, g);
    if x in g.elements {
      assert Mentioned(g, x);
      RenamedAt(m, g, x);
      RenamedAt(r, h, Renamed(m, x));
      RenamedElementBack(r, m, g, x);
    }
    if x in ApplyMapping(r, h).elements {
      var k := RenamedFrom(r, h, x);
      var y := RenamedFrom(m, g, k);
      assert Mentioned(g, y);
    }
  }

  lemma RenamedBackLists(r: map<Id, Id>, m: map<Id, Id>, g: Graph)
    requires WellKeyed(g) && TakesBack(r, m, g)
    ensures var back := ApplyMapping(r, ApplyMapping(m, g)); back.order == g.order && back.roots == g.roots
  {
    TakesBackKeepsApart(r, m, g);
    RenamedLists(m, g);
    RenamedLists(r, ApplyMapping(m, g));
    assert forall x :: x in g.order || x in g.roots ==> Mentioned(g, x);
    RenamedAllBack(r, m, g.order);
    RenamedAllBack(r, m, g.roots);
  }

  lemma RenamingBackRestores(r: map<Id, Id>, m: map<Id, Id>, g: Graph)
    requires WellKeyed(g) && TakesBack(r, m, g)
    ensures ApplyMapping(r, ApplyMapping(m, g)) == g
  {
    RenamedBackLists(r, m, g);
    var back := ApplyMapping(r, ApplyMapping(m, g));
    forall x
      ensures (x in back.elements <==> x in g.elements) && (x in g.elements ==> back.elements[x] == g.elements[x])
    {
      RenamedBackAt(r, m, g, x);
    }
    assert back.elements == g.elements;
  }

  /** Injective on every id that the model or the mapping mentions. */
  ghost predicate InjectiveRenaming(m: map<Id, Id>, g: Graph) {
    forall x, y :: (Mentioned(g, x) || x in m) && (Mentioned(g, y) || y in m) && x != y ==>
      Renamed(m, x) != Renamed(m, y)
  }

  ghost function Inverse(m: map<Id, Id>): map<Id, Id> {
    map v | v in m.Values :: var k :| k in m && m[k] == v; k
  }

  /** The inverse mapping restores the model. */
  lemma InverseMappingRestores(m: map<Id, Id>, g: Graph)
    requires WellKeyed(g) && InjectiveRenaming(m, g)
    ensures ApplyMapping(Inverse(m), ApplyMapping(m, g)) == g
  {
    assert forall x :: x in m ==> m[x] in m.Values;
    forall x | Mentioned(g, x) ensures Renamed(Inverse(m), Renamed(m, x)) == x {
      var y, r := Renamed(m, x), Inverse(m);
      if y in r {
        assert r[y] in m && m[r[y]] == y;
      }
    }
    RenamingBackRestores(Inverse(m), m, g);
  }

  // ---------------------------------------------------------------------------------------------
  // Restoring original ids
  // ---------------------------------------------------------------------------------------------

  /** A renaming of content elements only, injective over the ids in use. */
  ghost predicate RenamesContent(m: map<Id, Id>, g: Graph) {
    InjectiveRenaming(m, g) && forall x :: x in m ==> IsContentIn(g, x)
  }

  lemma {:induction false} IdMappingUpToAt(g: Graph, originals: map<string, Id>, n: nat, x: Id)
    requires Acyclic(g) && n <= |g.order|
    ensures var r, q := IdMappingUpTo(g, originals, n), ComputeQualifiedName(g, x);
      && (x in r <==> x in g.order[..n] && IsContentIn(g, x) && q in originals)
      && (x in r ==> r[x] == originals[q])
  {
    hide ComputeQualifiedName;
    if n > 0 {
      IdMappingUpToAt(g, originals, n - 1, x);
      assert g.order[..n] == g.order[..n - 1] + [g.order[n - 1]];
    }
  }

  lemma IdMappingAt(g: Graph, originals: map<string, Id>, x: Id)
    requires WellKeyed(g) && Acyclic(g)
    ensures var r, q := IdMapping(g, originals), ComputeQualifiedName(g, x);
      && (x in r <==> IsContentIn(g, x) && q in originals)
      && (x in r ==> r[x] == originals[q])
  {
    hide ComputeQualifiedName;
    IdMappingUpToAt(g, originals, |g.order|, x);
    assert g.order[..|g.order|] == g.order;
  }

  /** Every content element is named, no two share a qualified name, and `originals` records each one's id. */
  ghost predicate Recorded(g: Graph, originals: map<string, Id>)
    requires Acyclic(g)
  {
    forall x :: IsContentIn(g, x) ==>
      && g.elements[x].name.Some?
      && ComputeQualifiedName(g, x) in originals
      && originals[ComputeQualifiedName(g, x)] == x
  }

  lemma RenamedPresence(m: map<Id, Id>, g: Graph, x: Id)
    requires WellKeyed(g) && RenamesContent(m, g) && Mentioned(g, x)
    ensures Renamed(m, x) in ApplyMapping(m, g).elements <==> x in g.elements
    ensures !IsContentIn(g, x) ==> Renamed(m, x) == x
  {
    if x in g.elements {
      RenamedAt(m, g, x);
    } else if Renamed(m, x) in ApplyMapping(m, g).elements {
      var y := RenamedFrom(m, g, Renamed(m, x));
      assert Mentioned(g, y);
    }
  }

  /** The element a renamed id stands for. */
  ghost function Original(m: map<Id, Id>, g: Graph, k: Id): Id
    requires exists x :: x in g.elements && k == Renamed(m, x)
  {
    var x :| x in g.elements && k == Renamed(m, x);
    x
  }

  lemma RenamedOwner(m: map<Id, Id>, g: Graph, k: Id)
    requires WellKeyed(g) && RenamesContent(m, g) && k in ApplyMapping(m, g).elements
    requires exists x :: x in g.elements && k == Renamed(m, x)
    ensures var h, x := ApplyMapping(m, g), Original(m, g, k);
      h.PresentOwner(k).Some? ==>
          g.PresentOwner(x).Some? && h.PresentOwner(k).value == Renamed(m, g.PresentOwner(x).value)
  {
    var x := Original(m, g, k);
    RenamedAt(m, g, x);
    if g.elements[x].owner.Some? {
      RenamedPresence(m, g, g.elements[x].owner.value);
    }
  }

  lemma RenamedRankDecreases(m: map<Id, Id>, g: Graph, rank: map<Id, nat>, k: Id)
    requires WellKeyed(g) && RenamesContent(m, g) && Ranks(g, rank) && k in ApplyMapping(m, g).elements
    requires forall c :: c in ApplyMapping(m, g).elements ==> exists x :: x in g.elements && c == Renamed(m, x)
    requires ApplyMapping(m, g).PresentOwner(k).Some?
    ensures var o := ApplyMapping(m, g).PresentOwner(k).value;
      rank[Original(m, g, o)] < rank[Original(m, g, k)]
  {
    RenamedOwner(m, g, k);
  }

  /** The rank of each renamed element is the rank of the element it stands for. */
  ghost predicate RanksOriginals(m: map<Id, Id>, g: Graph, rank: map<Id, nat>, renamed: map<Id, nat>)
    requires forall k :: k in ApplyMapping(m, g).elements ==> exists x :: x in g.elements && k == Renamed(m, x)
  {
    forall k :: k in ApplyMapping(m, g).elements ==>
      var x := Original(m, g, k); k in renamed && x in rank && renamed[k] == rank[x]
  }

  lemma RenamedRanks(m: map<Id, Id>, g: Graph, rank: map<Id, nat>, renamed: map<Id, nat>)
    requires WellKeyed(g) && RenamesContent(m, g) && Ranks(g, rank)
    requires forall k :: k in ApplyMapping(m, g).elements ==> exists x :: x in g.elements && k == Renamed(m, x)
    requires RanksOriginals(m, g, rank, renamed)
    ensures Ranks(ApplyMapping(m, g), renamed)
  {
    hide ApplyMapping, WellKeyed, RenamesContent, Renamed, Original;
    var h := ApplyMapping(m, g);
    forall c | h.PresentOwner(c).Some? ensures renamed[h.elements[c].owner.value] < renamed[c] {
      RenamedRankDecreases(m, g, rank, c);
    }
  }

  lemma RenamingKeepsAcyclic(m: map<Id, Id>, g: Graph)
    requires WellKeyed(g) && Acyclic(g) && RenamesContent(m, g)
    ensures Acyclic(ApplyMapping(m, g))
  {
    hide ApplyMapping, WellKeyed, RenamesContent, Renamed;
    var h := ApplyMapping(m, g);
    forall k | k in h.elements ensures exists x :: x in g.elements && k == Renamed(m, x) {
      var x := RenamedFrom(m, g, k);
    }
    var rank: map<Id, nat> :| Ranks(g, rank);
    var renamed: map<Id, nat> := map k | k in h.elements :: rank[Original(m, g, k)];
    RenamedRanks(m, g, rank, renamed);
  }

  lemma {:induction false} RenamingKeepsQualifiedName(m: map<Id, Id>, g: Graph, x: Id)
    requires WellKeyed(g) && Acyclic(g) && RenamesContent(m, g) && Mentioned(g, x)
    requires Acyclic(ApplyMapping(m, g))
    requires forall y :: IsContentIn(g, y) ==> g.elements[y].name.Some?
    ensures ComputeQualifiedName(ApplyMapping(m, g), Renamed(m, x)) == ComputeQualifiedName(g, x)
    decreases RankOf(g, x)
  {
    RenamedPresence(m, g, x);
    if x in g.elements {
      RenamedAt(m, g, x);
      if g.elements[x].owner.Some? {
        OwnerRanksLower(g, x);
        RenamingKeepsQualifiedName(m, g, g.elements[x].owner.value);
      }
    }
  }

  /** Restoring undoes any injective renaming of named content elements with distinct qualified names. */
  lemma RestoreUndoesRenaming(m: map<Id, Id>, g: Graph, originals: map<string, Id>)
    requires WellKeyed(g) && Acyclic(g) && RenamesContent(m, g) && Recorded(g, originals)
    ensures Acyclic(ApplyMapping(m, g)) && RestoreIds(ApplyMapping(m, g), originals) == g
  {
    var h := ApplyMapping(m, g);
    RenamingKeepsAcyclic(m, g);
    var r := IdMapping(h, originals);
    forall x | Mentioned(g, x) ensures Renamed(r, Renamed(m, x)) == x {
      RenamedBack(m, g, originals, x);
    }
    RenamingBackRestores(r, m, g);
  }

  lemma RenamedBack(m: map<Id, Id>, g: Graph, originals: map<string, Id>, x: Id)
    requires WellKeyed(g) && Acyclic(g) && RenamesContent(m, g) && Recorded(g, originals) && Mentioned(g, x)
    requires Acyclic(ApplyMapping(m, g))
    ensures Renamed(IdMapping(ApplyMapping(m, g), originals), Renamed(m, x)) == x
  {
    hide ApplyMapping, IdMapping, ComputeQualifiedName;
    RenamedPresence(m, g, x);
    RenamedLists(m, g);
    IdMappingAt(ApplyMapping(m, g), originals, Renamed(m, x));
    if x in g.elements {
      RenamedAt(m, g, x);
      RenamingKeepsQualifiedName(m, g, x);
    }
  }

  lemma RenamedAllIdentity(m: map<Id, Id>, s: seq<Id>)
    requires forall x :: x in m ==> m[x] == x
    ensures RenamedAll(m, s) == s
  {
  }

  lemma RenamedElementIdentity(m: map<Id, Id>, e: Element)
    requires forall x :: x in m ==> m[x] == x
    ensures RenamedElement(m, e) == e
  {
    RenamedAllIdentity(m, e.owned);
    if e.relationship.Some? {
      RenamedAllIdentity(m, e.relationship.value.source);
      RenamedAllIdentity(m, e.relationship.value.target);
    }
  }

  lemma IdentityMapping(m: map<Id, Id>, g: Graph)
    requires WellKeyed(g) && forall x :: x in m ==> m[x] == x
    ensures ApplyMapping(m, g) == g
  {
    var h := ApplyMapping(m, g);
    RenamedLists(m, g);
    RenamedAllIdentity(m, g.order);
    RenamedAllIdentity(m, g.roots);
    forall x ensures (x in h.elements <==> x in g.elements) && (x in g.elements ==> h.elements[x] == g.elements[x]) {
      if x in g.elements {
        RenamedAt(m, g, x);
        RenamedElementIdentity(m, g.elements[x]);
      }
      if x in h.elements {
        var y := RenamedFrom(m, g, x);
      }
    }
    assert h.elements == g.elements;
  }

  /** Restoring changes nothing when every name that is on record is on record with the id it already has. */
  lemma RestoreIsIdentity(g: Graph, originals: map<string, Id>)
    requires WellKeyed(g) && Acyclic(g)
    requires forall x :: IsContentIn(g, x) && ComputeQualifiedName(g, x) in originals ==>
               originals[ComputeQualifiedName(g, x)] == x
    ensures RestoreIds(g, originals) == g
  {
    forall x | x in IdMapping(g, originals) ensures IdMapping(g, originals)[x] == x {
      IdMappingAt(g, originals, x);
    }
    IdentityMapping(IdMapping(g, originals), g);
  }

  // ---------------------------------------------------------------------------------------------
  // The passes in place
  // ---------------------------------------------------------------------------------------------

  method ApplyIdMapping(model: Model, m: map<Id, Id>)
    requires WellKeyed(model.Value())
    modifies model
    ensures model.Value() == ApplyMapping(m, old(model.Value()))
  {
    ghost var g := model.Value();
    var oldOrder, oldElements := model.order, model.elements;
    model.order, model.elements := [], map[];
    for i := 0 to |oldOrder|
      invariant oldOrder == g.order && oldElements == g.elements
      invariant model.Value() == RenamedKeys(m, g, i) && model.roots == g.roots
    {
      var id := oldOrder[i];
      assert id in g.order;
      model.Insert(RenamedOwnership(m, oldElements[id]));
    }
    model.roots := RenamedAll(m, model.roots);
    RemapEdges(model, m);
  }

  /** The second pass: rewrites the endpoints of every edge. */
  method RemapEdges(model: Model, m: map<Id, Id>)
    modifies model
    ensures model.order == old(model.order) && model.roots == old(model.roots)
    ensures model.elements == RenamedEdgesOf(m, old(model.elements))
  {
    ghost var before := model.elements;
    var ids := model.elements.Keys;
    while ids != {}
      invariant ids <= before.Keys == model.elements.Keys
      invariant model.order == old(model.order) && model.roots == old(model.roots)
      invariant forall id :: id in before ==>
        model.elements[id] == if id in ids then before[id] else RenamedEdges(m, before[id])
    {
      var id :| id in ids;
      model.elements := model.elements[id := RenamedEdges(m, model.elements[id])];
      ids := ids - {id};
    }
  }

  method RestoreElementIds(model: Model, originals: map<string, Id>)
    requires WellKeyed(model.Value()) && Acyclic(model.Value())
    modifies model
    ensures model.Value() == RestoreIds(old(model.Value()), originals)
  {
    var mapping := IdMapping(model.Value(), originals);
    ApplyIdMapping(model, mapping);
  }
}
