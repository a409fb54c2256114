/** The invariant of the translation from symbols to a model, and that every step of the build keeps it. */
module EncodeSteps {
  import opened Wrappers
  import opened ElementKinds
  import opened ModelGraph
  import opened Wrapping
  import opened EditSpec
  import opened Names
  import opened Integrate
  import opened GeneratedIds

  // ---------------------------------------------------------------------------------------------
  // Symbol lists
  // ---------------------------------------------------------------------------------------------

  /** Symbols with distinct ordinary ids and distinct names, none of which encloses others while being an
      import. */
  ghost predicate Proper(symbols: seq<HirSymbol>) {
    && (forall i, j :: 0 <= i < j < |symbols| ==> symbols[i].elementId != symbols[j].elementId)
    && (forall i, j :: 0 <= i < j < |symbols| ==> symbols[i].qualifiedName != symbols[j].qualifiedName)
    && (forall i :: 0 <= i < |symbols| ==> ClassOf(symbols[i].elementId) == Ordinary)
    && (forall i, j :: 0 <= i < |symbols| && 0 <= j < |symbols|
          && ParentName(symbols[i]) == Some(symbols[j].qualifiedName)
          ==> !symbols[j].IsImport())
  }

  lemma {:induction false} NameMapKeys(symbols: seq<HirSymbol>, q: string) returns (i: nat)
    requires q in NameMap(symbols)
    ensures i < |symbols| && symbols[i].qualifiedName == q && NameMap(symbols)[q] == symbols[i].elementId
  {
    var n := |symbols| - 1;
    if symbols[n].qualifiedName == q {
      i := n;
    } else {
      i := NameMapKeys(symbols[..n], q);
    }
  }

  lemma {:induction false} NameMapAt(symbols: seq<HirSymbol>, i: nat)
    requires i < |symbols|
    requires forall i, j :: 0 <= i < j < |symbols| ==> symbols[i].qualifiedName != symbols[j].qualifiedName
    ensures symbols[i].qualifiedName in NameMap(symbols)
    ensures NameMap(symbols)[symbols[i].qualifiedName] == symbols[i].elementId
  {
    var n := |symbols| - 1;
    if i < n {
      NameMapAt(symbols[..n], i);
      assert symbols[..n][i] == symbols[i];
    }
  }

  /** The owner id of a symbol is the id of the content symbol that has the parent's name. */
  lemma OwnerIsSymbol(symbols: seq<HirSymbol>, i: nat) returns (j: nat)
    requires Proper(symbols) && i < |symbols| && OwnerId(NameMap(symbols), symbols[i]).Some?
    ensures j < |symbols| && !symbols[j].IsImport() && j != i
    ensures OwnerId(NameMap(symbols), symbols[i]) == Some(symbols[j].elementId)
    ensures ParentName(symbols[i]) == Some(symbols[j].qualifiedName)
    ensures |symbols[j].qualifiedName| + 2 <= |symbols[i].qualifiedName|
  {
    j := NameMapKeys(symbols, ParentName(symbols[i]).value);
  }

  // ---------------------------------------------------------------------------------------------
  // The invariants of the build
  // ---------------------------------------------------------------------------------------------

  /** The owned list of `p` holds `c` exactly when `c` is present and its owner pointer leads to `p`. */
  ghost predicate ListsRightly(g: Graph, p: Id, c: Id) {
    p in g.elements ==> (c in g.elements[p].owned <==> c in g.elements && g.elements[c].owner == Some(p))
  }

  ghost predicate Lists(g: Graph) {
    forall p, c :: ListsRightly(g, p, c)
  }

  ghost predicate Structured(g: Graph) {
    WellKeyed(g) && Lists(g) && ContentListedOnce(g) && (forall r :: r in g.roots ==> r in g.elements)
  }

  /** An id that is neither a key nor an owner. */
  ghost predicate Free(g: Graph, x: Id) {
    x !in g.elements && forall y :: y in g.elements ==> g.elements[y].owner != Some(x)
  }

  function Level(symbol: HirSymbol): nat { 4 * |symbol.qualifiedName| + 4 }

  /** One element's rank: above its owner's, at the level of its name if it is a symbol's, and above the
      level of an owning symbol even before that symbol's turn. */
  ghost predicate LeveledAt(symbols: seq<HirSymbol>, g: Graph, rank: map<Id, nat>, c: Id)
    requires c in g.elements
  {
    && c in rank
    && (g.PresentOwner(c).Some? ==> g.PresentOwner(c).value in rank && rank[g.PresentOwner(c).value] < rank[c])
    && (forall i :: 0 <= i < |symbols| && !symbols[i].IsImport() && symbols[i].elementId == c ==>
          rank[c] == Level(symbols[i]))
    && (forall i ::
          0 <= i < |symbols| && !symbols[i].IsImport() && g.elements[c].owner == Some(symbols[i].elementId) ==>
          rank[c] > Level(symbols[i]))
  }

  ghost predicate Leveled(symbols: seq<HirSymbol>, g: Graph, rank: map<Id, nat>) {
    forall c :: c in g.elements ==> LeveledAt(symbols, g, rank, c)
  }

  lemma LeveledIsAcyclic(symbols: seq<HirSymbol>, g: Graph, rank: map<Id, nat>)
    requires Leveled(symbols, g, rank)
    ensures Acyclic(g)
  {
    assert forall c :: c in g.elements ==> LeveledAt(symbols, g, rank, c);
    assert Ranks(g, rank);
  }

  /** How far the build has come: symbols and their wrappers, values, and edge numbers. */
  datatype Progress = Progress(symbols: nat, values: nat, edges: nat)

  /** An id whose turn is still to come: an edge beyond the counter, or something of a later symbol. */
  ghost predicate IsAhead(symbols: seq<HirSymbol>, at: Progress, x: Id) {
    || (exists k :: k > at.edges && x == RelId(k))
    || (exists i :: at.symbols <= i < |symbols| && x == WrapId(symbols[i].elementId))
    || (exists i :: at.values <= i < |symbols|
          && (x == ValueId(symbols[i].elementId) || x == LiteralId(symbols[i].elementId)))
  }

  ghost predicate Ahead(symbols: seq<HirSymbol>, at: Progress, g: Graph) {
    && (forall x :: IsAhead(symbols, at, x) ==> Free(g, x))
    && (forall i :: at.symbols <= i < |symbols| ==> symbols[i].elementId !in g.elements)
  }

  /** The element of a symbol: under its owner, or in its own specialised wrapper under its owner. */
  ghost predicate SymbolPlaced(symbols: seq<HirSymbol>, g: Graph, i: nat)
    requires i < |symbols|
  {
    var s, w := symbols[i], WrapId(symbols[i].elementId);
    && s.elementId in g.elements
    && (var e := g.elements[s.elementId];
        && e.kind == ElementKindOf(s.kind) && e.name == Some(s.name) && e.qualifiedName == Some(s.qualifiedName)
        && (|| (e.owner == OwnerId(NameMap(symbols), s) && Free(g, w))
            || SlotWrapped(symbols, g, i)))
  }

  ghost predicate SlotWrapped(symbols: seq<HirSymbol>, g: Graph, i: nat)
    requires i < |symbols|
  {
    var s, w := symbols[i], WrapId(symbols[i].elementId);
    && s.elementId in g.elements && g.elements[s.elementId].owner == Some(w)
    && w in g.elements && g.elements[w].kind.Relation?
    && g.elements[w].owner.Some? && g.elements[w].owner == OwnerId(NameMap(symbols), s)
    && (forall y :: y in g.elements && g.elements[y].owner == Some(w) ==> y == s.elementId)
  }

  ghost predicate AllPlaced(symbols: seq<HirSymbol>, n: nat, g: Graph) {
    forall i :: 0 <= i < n && i < |symbols| && !symbols[i].IsImport() ==> SymbolPlaced(symbols, g, i)
  }

  /** Content with an owner is a symbol's element or sits under a relationship. */
  ghost predicate ContentIsSymbol(symbols: seq<HirSymbol>, g: Graph) {
    forall c :: IsContentIn(g, c) && g.elements[c].owner.Some? ==>
      || IsSymbolId(symbols, c)
      || (g.PresentOwner(c).Some? && g.elements[g.elements[c].owner.value].kind.IsRelationship())
  }

  ghost predicate IsSymbolId(symbols: seq<HirSymbol>, x: Id) {
    exists i :: 0 <= i < |symbols| && !symbols[i].IsImport() && symbols[i].elementId == x
  }

  /** What holds of a graph whose owned lists are about to be rebuilt. */
  ghost predicate Linked(symbols: seq<HirSymbol>, at: Progress, g: Graph) {
    && WellKeyed(g) && (forall r :: r in g.roots ==> r in g.elements)
    && Ahead(symbols, at, g)
    && (exists rank: map<Id, nat> :: Leveled(symbols, g, rank))
    && AllPlaced(symbols, at.symbols, g)
    && ContentIsSymbol(symbols, g)
    && OwnersAreProper(symbols, g)
  }

  ghost predicate BuildInvariant(symbols: seq<HirSymbol>, at: Progress, g: Graph) {
    Structured(g) && Linked(symbols, at, g)
  }

  /** Owners are content symbols, wrappers or values. */
  ghost predicate IsProperOwner(symbols: seq<HirSymbol>, x: Id) {
    IsSymbolId(symbols, x) || ClassOf(x) == WrapClass || ClassOf(x) == ValueClass
  }

  ghost predicate OwnersAreProper(symbols: seq<HirSymbol>, g: Graph) {
    forall x :: x in g.elements && g.elements[x].owner.Some? ==> IsProperOwner(symbols, g.elements[x].owner.value)
  }

  // ---------------------------------------------------------------------------------------------
  // Attaching a leaf
  // ---------------------------------------------------------------------------------------------

  /** Inserting an element and listing it under its owner. */
  function Attach(g: Graph, e: Element): Graph {
    var h := g.Insert(e);
    if e.owner.Some? then h.SetOwned(e.owner.value, h.OwnedOf(e.owner.value) + [e.id]) else h
  }

  /** A childless element under an id nothing uses: a relationship, owned by a symbol if by anything, or an
      unowned stand-in. */
  ghost predicate IsLeaf(symbols: seq<HirSymbol>, g: Graph, e: Element) {
    && (e.kind.IsRelationship() || e.owner.None?) && e.owned == [] && Free(g, e.id) && e.owner != Some(e.id)
    && (e.owner.Some? ==> IsSymbolId(symbols, e.owner.value))
    && !IsSymbolId(symbols, e.id)
  }

  lemma AttachShape(g: Graph, e: Element)
    requires Free(g, e.id) && e.owner != Some(e.id)
    ensures var h := Attach(g, e);
      && h.order == g.order + [e.id] && h.roots == g.roots && h.elements.Keys == g.elements.Keys + {e.id}
      && h.elements[e.id] == e
      && (forall x :: x in g.elements ==>
            h.elements[x] == g.elements[x].(owned := g.elements[x].owned + (if e.owner == Some(x) then [e.id] else [])))
  {
    assert forall x :: x in g.elements ==> g.elements[x] == g.elements[x].(owned := g.elements[x].owned + []);
  }

  lemma AttachKeepsLists(g: Graph, e: Element, p: Id, c: Id)
    requires Structured(g) && Free(g, e.id) && e.owner != Some(e.id) && e.owned == []
    ensures ListsRightly(Attach(g, e), p, c)
  {
    AttachShape(g, e);
    assert ListsRightly(g, p, c);
  }

  lemma AttachKeepsStructured(symbols: seq<HirSymbol>, g: Graph, e: Element)
    requires Structured(g) && IsLeaf(symbols, g, e)
    ensures Structured(Attach(g, e))
  {
    AttachShape(g, e);
    var h := Attach(g, e);
    forall p, c ensures ListsRightly(h, p, c) {
      AttachKeepsLists(g, e, p, c);
    }
    forall p | p in h.elements ensures ListsContentOnce(g, h.elements[p].owned) {
      if p in g.elements {
      }
    }
    forall p, x | p in h.elements && x in h.elements[p].owned && IsContentIn(h, x) ensures IsContentIn(g, x) {
      AttachKeepsLists(g, e, p, x);
    }
    ListsOnceEverywhere(g, h);
  }

  lemma AheadIsGenerated(symbols: seq<HirSymbol>, at: Progress, x: Id)
    requires Proper(symbols) && IsAhead(symbols, at, x)
    ensures ClassOf(x) != Ordinary && ClassOf(x) != ExternalClass
  {
    if k :| k > at.edges && x == RelId(k) {
      ClassOfRel(k);
    } else if i :| at.symbols <= i < |symbols| && x == WrapId(symbols[i].elementId) {
      ClassOfWrap(symbols[i].elementId);
    } else {
      var i :| at.values <= i < |symbols|
          && (x == ValueId(symbols[i].elementId) || x == LiteralId(symbols[i].elementId));
      ClassOfValue(symbols[i].elementId);
      ClassOfLiteral(symbols[i].elementId);
    }
  }

  lemma SymbolIdIsOrdinary(symbols: seq<HirSymbol>, x: Id)
    requires Proper(symbols) && IsSymbolId(symbols, x)
    ensures ClassOf(x) == Ordinary
  {
  }

  ghost predicate Reaches(at: Progress, next: Progress) {
    at.symbols <= next.symbols && at.values <= next.values && at.edges <= next.edges
  }

  /** No content symbol's turn lies in between. */
  ghost predicate OnlyImports(symbols: seq<HirSymbol>, at: Progress, next: Progress) {
    forall i :: at.symbols <= i < next.symbols && i < |symbols| ==> symbols[i].IsImport()
  }

  /** An id whose turn has come. */
  ghost predicate HasCome(symbols: seq<HirSymbol>, at: Progress, x: Id) {
    && !IsAhead(symbols, at, x)
    && (forall i :: at.symbols <= i < |symbols| ==> symbols[i].elementId != x)
  }

  /** A graph whose new keys have come and whose new owner pointers lead to ids that have come stays ahead. */
  lemma AheadGrows(symbols: seq<HirSymbol>, at: Progress, g: Graph, next: Progress, h: Graph)
    requires Ahead(symbols, at, g) && Reaches(at, next)
    requires forall x :: x in h.elements && x !in g.elements ==> HasCome(symbols, next, x)
    requires forall x :: x in h.elements && h.elements[x].owner.Some? ==>
      (x in g.elements && g.elements[x].owner == h.elements[x].owner)
          || !IsAhead(symbols, next, h.elements[x].owner.value)
    ensures Ahead(symbols, next, h)
  {
    forall x | IsAhead(symbols, next, x) ensures Free(h, x) {
      assert IsAhead(symbols, at, x);
    }
  }

  lemma AttachKeepsAhead(symbols: seq<HirSymbol>, at: Progress, next: Progress, g: Graph, e: Element)
    requires Proper(symbols) && Ahead(symbols, at, g) && Reaches(at, next) && IsLeaf(symbols, g, e)
    requires HasCome(symbols, next, e.id)
    ensures Ahead(symbols, next, Attach(g, e))
  {
    AttachShape(g, e);
    if e.owner.Some? {
      SymbolIdIsOrdinary(symbols, e.owner.value);
      if IsAhead(symbols, next, e.owner.value) {
        AheadIsGenerated(symbols, next, e.owner.value);
      }
    }
    AheadGrows(symbols, at, g, next, Attach(g, e));
  }

  lemma SymbolIdIndex(symbols: seq<HirSymbol>, x: Id) returns (i: nat)
    requires IsSymbolId(symbols, x)
    ensures i < |symbols| && !symbols[i].IsImport() && symbols[i].elementId == x
  {
    i :| 0 <= i < |symbols| && !symbols[i].IsImport() && symbols[i].elementId == x;
  }

  /** The level of a leaf: just above its owner's. */
  lemma AttachKeepsLevelsAt(symbols: seq<HirSymbol>, g: Graph, e: Element, rank: map<Id, nat>, level: nat)
    requires Structured(g) && Leveled(symbols, g, rank) && IsLeaf(symbols, g, e)
    requires forall i :: 0 <= i < |symbols| && !symbols[i].IsImport() && e.owner == Some(symbols[i].elementId) ==>
               level > Level(symbols[i])
    ensures Leveled(symbols, Attach(g, e), rank[e.id := level])
  {
    AttachShape(g, e);
    var h, r := Attach(g, e), rank[e.id := level];
    forall c | c in h.elements ensures LeveledAt(symbols, h, r, c) {
      if c == e.id {
        assert !IsSymbolId(symbols, c);
        if e.owner.Some? && e.owner.value in g.elements {
          var i := SymbolIdIndex(symbols, e.owner.value);
          assert LeveledAt(symbols, g, rank, e.owner.value);
        }
      } else {
        assert LeveledAt(symbols, g, rank, c);
      }
    }
  }

  lemma AttachKeepsLevels(symbols: seq<HirSymbol>, g: Graph, e: Element, rank: map<Id, nat>)
    requires Proper(symbols) && Structured(g) && Leveled(symbols, g, rank) && IsLeaf(symbols, g, e)
    ensures exists r: map<Id, nat> :: Leveled(symbols, Attach(g, e), r)
  {
    var level := 0;
    if e.owner.Some? {
      var i := SymbolIdIndex(symbols, e.owner.value);
      level := Level(symbols[i]) + 1;
    }
    AttachKeepsLevelsAt(symbols, g, e, rank, level);
  }

  /** A symbol stays placed while its element, its wrapper and the wrapper's charges stay as they are. */
  lemma PlacedUnchanged(symbols: seq<HirSymbol>, g: Graph, h: Graph, i: nat)
    requires i < |symbols| && SymbolPlaced(symbols, g, i)
    requires var x := symbols[i].elementId;
      x in h.elements && h.elements[x].(owned := []) == g.elements[x].(owned := [])
    requires var w := WrapId(symbols[i].elementId);
      && (w in h.elements <==> w in g.elements)
      && (w in g.elements ==> h.elements[w].kind == g.elements[w].kind && h.elements[w].owner == g.elements[w].owner)
      && (forall y :: y in h.elements && h.elements[y].owner == Some(w) ==>
            y in g.elements && g.elements[y].owner == Some(w))
    ensures SymbolPlaced(symbols, h, i)
  {
    var x, w := symbols[i].elementId, WrapId(symbols[i].elementId);
    var before, after := g.elements[x].(owned := []), h.elements[x].(owned := []);
    assert before.kind == after.kind && before.name == after.name && before.qualifiedName == after.qualifiedName
           && before.owner == after.owner;
  }

  lemma AttachKeepsPlaced(symbols: seq<HirSymbol>, g: Graph, e: Element, i: nat)
    requires Proper(symbols) && IsLeaf(symbols, g, e) && ClassOf(e.id) != WrapClass
    requires i < |symbols| && !symbols[i].IsImport() && SymbolPlaced(symbols, g, i)
    ensures SymbolPlaced(symbols, Attach(g, e), i)
  {
    ClassOfWrap(symbols[i].elementId);
    if e.owner.Some? {
      SymbolIdIsOrdinary(symbols, e.owner.value);
    }
    AttachShape(g, e);
    hide SymbolPlaced, Proper, IsLeaf;
    PlacedUnchanged(symbols, g, Attach(g, e), i);
  }

  lemma AttachKeepsContent(symbols: seq<HirSymbol>, g: Graph, e: Element)
    requires Structured(g) && ContentIsSymbol(symbols, g) && IsLeaf(symbols, g, e)
    ensures ContentIsSymbol(symbols, Attach(g, e))
  {
    AttachShape(g, e);
    var h := Attach(g, e);
    forall c | IsContentIn(h, c) && h.elements[c].owner.Some?
      ensures IsSymbolId(symbols, c) ||
        (h.PresentOwner(c).Some? && h.elements[h.elements[c].owner.value].kind.IsRelationship())
    {
      assert IsContentIn(g, c);
    }
  }

  lemma AttachKeepsInvariant(symbols: seq<HirSymbol>, at: Progress, next: Progress, g: Graph, e: Element)
    requires Proper(symbols) && BuildInvariant(symbols, at, g) && IsLeaf(symbols, g, e)
    requires Reaches(at, next) && OnlyImports(symbols, at, next)
    requires HasCome(symbols, next, e.id) && ClassOf(e.id) != WrapClass
    ensures BuildInvariant(symbols, next, Attach(g, e))
  {
    AttachKeepsStructured(symbols, g, e);
    AttachKeepsAhead(symbols, at, next, g, e);
    var rank: map<Id, nat> :| Leveled(symbols, g, rank);
    AttachKeepsLevels(symbols, g, e, rank);
    forall i | 0 <= i < next.symbols && i < |symbols| && !symbols[i].IsImport()
      ensures SymbolPlaced(symbols, Attach(g, e), i)
    {
      AttachKeepsPlaced(symbols, g, e, i);
    }
    AttachKeepsContent(symbols, g, e);
    AttachKeepsOwnersProper(symbols, g, e);
  }

  lemma AttachKeepsOwnersProper(symbols: seq<HirSymbol>, g: Graph, e: Element)
    requires Proper(symbols) && OwnersAreProper(symbols, g) && IsLeaf(symbols, g, e)
    ensures OwnersAreProper(symbols, Attach(g, e))
  {
    AttachShape(g, e);
  }

  // ---------------------------------------------------------------------------------------------
  // Stand-ins
  // ---------------------------------------------------------------------------------------------

  /** Graphs that differ in owned lists and roots only. */
  ghost predicate SameLinks(g: Graph, h: Graph) {
    && g.elements.Keys == h.elements.Keys
    && (forall x :: x in g.elements ==> h.elements[x].(owned := []) == g.elements[x].(owned := []))
  }

  lemma SameLinksKeepsLevels(symbols: seq<HirSymbol>, g: Graph, h: Graph, rank: map<Id, nat>)
    requires SameLinks(g, h) && Leveled(symbols, g, rank)
    ensures Leveled(symbols, h, rank)
  {
    forall c | c in h.elements ensures LeveledAt(symbols, h, rank, c) {
      assert LeveledAt(symbols, g, rank, c);
    }
  }

  lemma SameLinksKeepsPlaced(symbols: seq<HirSymbol>, g: Graph, h: Graph, i: nat)
    requires SameLinks(g, h) && i < |symbols| && SymbolPlaced(symbols, g, i)
    ensures SymbolPlaced(symbols, h, i)
  {
    forall x | x in g.elements
      ensures h.elements[x].owner == g.elements[x].owner && h.elements[x].kind == g.elements[x].kind
    {
    }
    PlacedUnchanged(symbols, g, h, i);
  }

  lemma SameLinksKeepsLinked(symbols: seq<HirSymbol>, at: Progress, g: Graph, h: Graph)
    requires Linked(symbols, at, g) && SameLinks(g, h) && Structured(h)
    ensures BuildInvariant(symbols, at, h)
  {
    hide IsAhead, LeveledAt, SymbolPlaced, IsSymbolId, IsProperOwner, Lists, ContentListedOnce;
    forall x | x in g.elements
      ensures h.elements[x].owner == g.elements[x].owner && h.elements[x].kind == g.elements[x].kind
    {
    }
    assert Ahead(symbols, at, h) by {
      forall x | IsAhead(symbols, at, x) ensures Free(h, x) {
        assert Free(g, x);
      }
    }
    var rank: map<Id, nat> :| Leveled(symbols, g, rank);
    SameLinksKeepsLevels(symbols, g, h, rank);
    forall i | 0 <= i < at.symbols && i < |symbols| && !symbols[i].IsImport() ensures SymbolPlaced(symbols, h, i) {
      SameLinksKeepsPlaced(symbols, g, h, i);
    }
    forall c | IsContentIn(h, c) && h.elements[c].owner.Some?
      ensures IsSymbolId(symbols, c) ||
        (h.PresentOwner(c).Some? && h.elements[h.elements[c].owner.value].kind.IsRelationship())
    {
      assert IsContentIn(g, c);
    }
  }

  lemma SameLinksKeepsInvariant(symbols: seq<HirSymbol>, at: Progress, g: Graph, h: Graph)
    requires BuildInvariant(symbols, at, g) && SameLinks(g, h) && Structured(h)
    ensures BuildInvariant(symbols, at, h)
  {
    SameLinksKeepsLinked(symbols, at, g, h);
  }

  lemma RootKeepsInvariant(symbols: seq<HirSymbol>, at: Progress, g: Graph, r: Id)
    requires BuildInvariant(symbols, at, g) && r in g.elements
    ensures BuildInvariant(symbols, at, g.(roots := g.roots + [r]))
  {
    var h := g.(roots := g.roots + [r]);
    forall p, c ensures ListsRightly(h, p, c) {
      assert ListsRightly(g, p, c);
    }
    SameLinksKeepsInvariant(symbols, at, g, h);
  }

  lemma StubKeepsInvariant(symbols: seq<HirSymbol>, at: Progress, g: Graph, target: string)
    requires Proper(symbols) && BuildInvariant(symbols, at, g)
    ensures BuildInvariant(symbols, at, WithStub(g, target))
  {
    ClassOfExternal(target);
    var e := Stub(target);
    if e.id !in g.elements {
      assert !IsSymbolId(symbols, e.id);
      if IsAhead(symbols, at, e.id) {
        AheadIsGenerated(symbols, at, e.id);
      }
      AttachKeepsInvariant(symbols, at, at, g, e);
      RootKeepsInvariant(symbols, at, Attach(g, e), e.id);
    }
  }

  // ---------------------------------------------------------------------------------------------
  // Specialised wrappers
  // ---------------------------------------------------------------------------------------------

  /** Symbol `i` is placed and has an owner, so its slot can be wrapped. */
  ghost predicate CanWrapSlot(symbols: seq<HirSymbol>, g: Graph, i: nat) {
    && i < |symbols| && !symbols[i].IsImport() && SymbolPlaced(symbols, g, i)
    && OwnerId(NameMap(symbols), symbols[i]).Some?
  }

  function ParentId(symbols: seq<HirSymbol>, i: nat): Id
    requires i < |symbols| && OwnerId(NameMap(symbols), symbols[i]).Some?
  {
    OwnerId(NameMap(symbols), symbols[i]).value
  }

  /** The parent's list once the slot has been wrapped. */
  function Rewrapped(owned: seq<Id>, slot: Id): seq<Id> {
    if slot in owned then owned[IndexOf(owned, slot) := WrapId(slot)] else owned + [WrapId(slot)]
  }

  lemma SlotIdsDiffer(symbols: seq<HirSymbol>, i: nat) returns (j: nat)
    requires Proper(symbols) && i < |symbols| && !symbols[i].IsImport() && OwnerId(NameMap(symbols), symbols[i]).Some?
    ensures var x, w, p := symbols[i].elementId, WrapId(symbols[i].elementId), ParentId(symbols, i);
      && x != w && x != p && p != w
      && ClassOf(x) == Ordinary && ClassOf(p) == Ordinary && ClassOf(w) == WrapClass
    ensures j < |symbols| && !symbols[j].IsImport() && symbols[j].elementId == ParentId(symbols, i)
    ensures Level(symbols[j]) + 8 <= Level(symbols[i])
  {
    j := OwnerIsSymbol(symbols, i);
    ClassOfWrap(symbols[i].elementId);
  }

  lemma WrapSlotShape(g: Graph, kind: HirRelKind, slot: Id, parent: Id)
    requires slot in g.elements && slot != parent && parent != WrapId(slot)
    ensures var h, w := WrapSlot(g, kind, slot, parent), WrapId(slot);
      && h.roots == g.roots && h.order == (if w in g.elements then g.order else g.order + [w])
      && h.elements.Keys == g.elements.Keys + {w}
      && h.elements[w] == SpecialWrapper(kind, slot, parent)
      && h.elements[slot] == g.elements[slot].(owner := Some(w))
      && (parent in g.elements ==>
            h.elements[parent] == g.elements[parent].(owned := Rewrapped(g.elements[parent].owned, slot)))
      && (forall x :: x in g.elements && x != w && x != slot && x != parent ==> h.elements[x] == g.elements[x])
  {
  }

  /** Where the slot was before: under its parent with the wrapper's id free, or already alone in it. */
  ghost predicate SlotReady(g: Graph, slot: Id, parent: Id) {
    && slot in g.elements
    && (|| (g.elements[slot].owner == Some(parent) && Free(g, WrapId(slot)))
        || (g.elements[slot].owner == Some(WrapId(slot)) && WrapId(slot) in g.elements
            && g.elements[WrapId(slot)].owner == Some(parent) && g.elements[WrapId(slot)].kind.Relation?
            && forall y :: y in g.elements && g.elements[y].owner == Some(WrapId(slot)) ==> y == slot))
  }

  lemma RewrappedMembers(g: Graph, slot: Id, parent: Id)
    requires Structured(g) && SlotReady(g, slot, parent) && parent in g.elements && parent != WrapId(slot)
    requires IsContentIn(g, slot)
    ensures forall x :: x in Rewrapped(g.elements[parent].owned, slot) <==>
              x == WrapId(slot) || (x in g.elements[parent].owned && x != slot)
    ensures ListsContentOnce(g, Rewrapped(g.elements[parent].owned, slot))
  {
    var owned, w := g.elements[parent].owned, WrapId(slot);
    var r := Rewrapped(owned, slot);
    assert ListsContentOnce(g, owned);
    assert !IsContentIn(g, w);
    if slot in owned {
      var k := IndexOf(owned, slot);
      assert r[k] == w;
      forall x | x in owned && x != slot ensures x in r {
        var j :| 0 <= j < |owned| && owned[j] == x;
        assert r[j] == x;
      }
      assert forall j :: k < j < |owned| ==> owned[j] != slot;
    }
  }

  /** One element of the graph with the slot wrapped. */
  lemma WrapSlotAt(g: Graph, kind: HirRelKind, slot: Id, parent: Id, x: Id)
    requires slot in g.elements && slot != parent && parent != WrapId(slot) && slot != WrapId(slot)
    ensures var h, w := WrapSlot(g, kind, slot, parent), WrapId(slot);
      && (x in h.elements <==> x in g.elements || x == w)
      && (x == w ==> h.elements[x] == SpecialWrapper(kind, slot, parent))
      && (x in g.elements && x != w ==>
            && h.elements[x].kind == g.elements[x].kind
            && h.elements[x].owner == (if x == slot then Some(w) else g.elements[x].owner)
            && h.elements[x].owned ==
                  (if x == parent then Rewrapped(g.elements[x].owned, slot) else g.elements[x].owned))
  {
    WrapSlotShape(g, kind, slot, parent);
  }

  lemma WrapSlotLists(g: Graph, kind: HirRelKind, slot: Id, parent: Id, p: Id, c: Id)
    requires Lists(g) && SlotReady(g, slot, parent)
    requires p == parent && p in g.elements ==>
               (c in Rewrapped(g.elements[p].owned, slot) <==>
                   c == WrapId(slot) || (c in g.elements[p].owned && c != slot))
    requires slot != parent && parent != WrapId(slot) && slot != WrapId(slot)
    ensures ListsRightly(WrapSlot(g, kind, slot, parent), p, c)
  {
    WrapSlotAt(g, kind, slot, parent, p);
    WrapSlotAt(g, kind, slot, parent, c);
    assert ListsRightly(g, p, c);
  }

  lemma WrapSlotListsOnce(g: Graph, kind: HirRelKind, slot: Id, parent: Id, p: Id)
    requires Structured(g) && SlotReady(g, slot, parent) && IsContentIn(g, slot)
    requires slot != parent && parent != WrapId(slot) && slot != WrapId(slot)
    requires p in WrapSlot(g, kind, slot, parent).elements
    ensures ListsContentOnce(g, WrapSlot(g, kind, slot, parent).elements[p].owned)
  {
    WrapSlotAt(g, kind, slot, parent, p);
    if p == parent {
      RewrappedMembers(g, slot, parent);
    } else if p in g.elements && p != WrapId(slot) {
      assert ListsContentOnce(g, g.elements[p].owned);
    }
  }

  lemma WrapSlotKeepsKeys(g: Graph, kind: HirRelKind, slot: Id, parent: Id)
    requires WellKeyed(g) && slot in g.elements && slot != parent && parent != WrapId(slot)
    requires forall r :: r in g.roots ==> r in g.elements
    ensures var h := WrapSlot(g, kind, slot, parent); WellKeyed(h) && forall r :: r in h.roots ==> r in h.elements
  {
    hide WrapSlot, Rewrapped;
    WrapSlotShape(g, kind, slot, parent);
  }

  lemma WrapSlotKeepsListing(g: Graph, kind: HirRelKind, slot: Id, parent: Id)
    requires Structured(g) && SlotReady(g, slot, parent) && IsContentIn(g, slot)
    requires slot != parent && parent != WrapId(slot) && slot != WrapId(slot)
    ensures ContentListedOnce(WrapSlot(g, kind, slot, parent))
  {
    var h := WrapSlot(g, kind, slot, parent);
    forall p | p in h.elements ensures ListsContentOnce(g, h.elements[p].owned) {
      WrapSlotListsOnce(g, kind, slot, parent, p);
    }
    forall x ensures IsContentIn(h, x) ==> IsContentIn(g, x) {
      WrapSlotAt(g, kind, slot, parent, x);
    }
    ListsOnceEverywhere(g, h);
  }

  lemma WrapSlotListsAt(g: Graph, kind: HirRelKind, slot: Id, parent: Id, p: Id, c: Id)
    requires Structured(g) && SlotReady(g, slot, parent) && IsContentIn(g, slot)
    requires slot != parent && parent != WrapId(slot) && slot != WrapId(slot)
    ensures ListsRightly(WrapSlot(g, kind, slot, parent), p, c)
  {
    if p == parent && p in g.elements {
      RewrappedMembers(g, slot, parent);
    }
    WrapSlotLists(g, kind, slot, parent, p, c);
  }

  lemma WrapSlotKeepsLists(g: Graph, kind: HirRelKind, slot: Id, parent: Id)
    requires Structured(g) && SlotReady(g, slot, parent) && IsContentIn(g, slot)
    requires slot != parent && parent != WrapId(slot) && slot != WrapId(slot)
    ensures Lists(WrapSlot(g, kind, slot, parent))
  {
    var h := WrapSlot(g, kind, slot, parent);
    forall p, c ensures ListsRightly(h, p, c) {
      WrapSlotListsAt(g, kind, slot, parent, p, c);
    }
  }

  lemma WrapSlotKeepsStructured(g: Graph, kind: HirRelKind, slot: Id, parent: Id)
    requires Structured(g) && SlotReady(g, slot, parent) && IsContentIn(g, slot)
    requires slot != parent && parent != WrapId(slot) && slot != WrapId(slot)
    ensures Structured(WrapSlot(g, kind, slot, parent))
  {
    WrapSlotKeepsKeys(g, kind, slot, parent);
    WrapSlotKeepsLists(g, kind, slot, parent);
    WrapSlotKeepsListing(g, kind, slot, parent);
  }

  // The wrapper in the invariant

  lemma WrapHasCome(symbols: seq<HirSymbol>, at: Progress, i: nat)
    requires Proper(symbols) && i < |symbols| && i < at.symbols
    ensures HasCome(symbols, at, WrapId(symbols[i].elementId))
  {
    var w := WrapId(symbols[i].elementId);
    ClassOfWrap(symbols[i].elementId);
    forall k | k > at.edges ensures w != RelId(k) {
      ClassOfRel(k);
    }
    forall j | at.symbols <= j < |symbols| ensures w != WrapId(symbols[j].elementId) {
      if w == WrapId(symbols[j].elementId) {
        AppendIsInjective(symbols[i].elementId, symbols[j].elementId, "-m");
      }
    }
    forall j | 0 <= j < |symbols| ensures w != ValueId(symbols[j].elementId) && w != LiteralId(symbols[j].elementId) {
      ClassOfValue(symbols[j].elementId);
      ClassOfLiteral(symbols[j].elementId);
    }
  }

  lemma PlacedIsReady(symbols: seq<HirSymbol>, g: Graph, i: nat)
    requires Proper(symbols) && CanWrapSlot(symbols, g, i)
    ensures SlotReady(g, symbols[i].elementId, ParentId(symbols, i)) && IsContentIn(g, symbols[i].elementId)
  {
    SymbolElementIsContent(symbols[i].kind);
  }

  lemma WrapSlotKeepsAhead(symbols: seq<HirSymbol>, at: Progress, g: Graph, kind: HirRelKind, i: nat)
    requires Proper(symbols) && Ahead(symbols, at, g) && CanWrapSlot(symbols, g, i) && i < at.symbols
    ensures Ahead(symbols, at, WrapSlot(g, kind, symbols[i].elementId, ParentId(symbols, i)))
  {
    var slot, parent := symbols[i].elementId, ParentId(symbols, i);
    var h, w := WrapSlot(g, kind, slot, parent), WrapId(slot);
    var j := SlotIdsDiffer(symbols, i);
    WrapHasCome(symbols, at, i);
    if IsAhead(symbols, at, parent) {
      AheadIsGenerated(symbols, at, parent);
    }
    forall x | x in h.elements && h.elements[x].owner.Some?
      ensures (x in g.elements && g.elements[x].owner == h.elements[x].owner)
                || !IsAhead(symbols, at, h.elements[x].owner.value)
    {
      WrapSlotAt(g, kind, slot, parent, x);
    }
    forall x | x in h.elements && x !in g.elements ensures HasCome(symbols, at, x) {
      WrapSlotAt(g, kind, slot, parent, x);
    }
    AheadGrows(symbols, at, g, at, h);
  }

  lemma WrapSlotLevelsAt(symbols: seq<HirSymbol>, g: Graph, kind: HirRelKind, i: nat, rank: map<Id, nat>, c: Id)
    requires Proper(symbols) && Leveled(symbols, g, rank) && CanWrapSlot(symbols, g, i)
    requires c in WrapSlot(g, kind, symbols[i].elementId, ParentId(symbols, i)).elements
    ensures LeveledAt(symbols, WrapSlot(g, kind, symbols[i].elementId, ParentId(symbols, i)),
                      rank[WrapId(symbols[i].elementId) := Level(symbols[i]) - 1], c)
  {
    var slot, parent := symbols[i].elementId, ParentId(symbols, i);
    var h, w := WrapSlot(g, kind, slot, parent), WrapId(slot);
    var j := SlotIdsDiffer(symbols, i);
    WrapSlotAt(g, kind, slot, parent, c);
    assert forall k :: 0 <= k < |symbols| ==> symbols[k].elementId != w;
    if c == w {
      WrapSlotAt(g, kind, slot, parent, parent);
      assert parent in g.elements ==> LeveledAt(symbols, g, rank, parent);
      assert forall k :: 0 <= k < |symbols| && symbols[k].elementId == parent ==> k == j;
    } else {
      assert LeveledAt(symbols, g, rank, c);
      if h.PresentOwner(c).Some? {
        WrapSlotAt(g, kind, slot, parent, h.PresentOwner(c).value);
      }
    }
  }

  lemma WrapSlotPlacesSlot(symbols: seq<HirSymbol>, g: Graph, kind: HirRelKind, i: nat)
    requires Proper(symbols) && CanWrapSlot(symbols, g, i)
    ensures SymbolPlaced(symbols, WrapSlot(g, kind, symbols[i].elementId, ParentId(symbols, i)), i)
    ensures SlotWrapped(symbols, WrapSlot(g, kind, symbols[i].elementId, ParentId(symbols, i)), i)
  {
    var slot, parent := symbols[i].elementId, ParentId(symbols, i);
    var h, w := WrapSlot(g, kind, slot, parent), WrapId(slot);
    var j := SlotIdsDiffer(symbols, i);
    WrapSlotShape(g, kind, slot, parent);
    forall y | y in h.elements && h.elements[y].owner == Some(w) ensures y == slot {
      WrapSlotAt(g, kind, slot, parent, y);
    }
  }

  lemma WrapSlotKeepsOther(symbols: seq<HirSymbol>, g: Graph, kind: HirRelKind, i: nat, k: nat)
    requires Proper(symbols) && CanWrapSlot(symbols, g, i) && k != i
    requires k < |symbols| && !symbols[k].IsImport() && SymbolPlaced(symbols, g, k)
    ensures SymbolPlaced(symbols, WrapSlot(g, kind, symbols[i].elementId, ParentId(symbols, i)), k)
  {
    var slot, parent := symbols[i].elementId, ParentId(symbols, i);
    var h, x, v := WrapSlot(g, kind, slot, parent), symbols[k].elementId, WrapId(symbols[k].elementId);
    var j := SlotIdsDiffer(symbols, i);
    ClassOfWrap(x);
    assert x != slot;
    assert v != WrapId(slot) by {
      if v == WrapId(slot) {
        AppendIsInjective(x, slot, "-m");
      }
    }
    WrapSlotShape(g, kind, slot, parent);
    WrapSlotAt(g, kind, slot, parent, v);
    forall y | y in h.elements && h.elements[y].owner == Some(v)
      ensures y in g.elements && g.elements[y].owner == Some(v)
    {
      WrapSlotAt(g, kind, slot, parent, y);
    }
    PlacedUnchanged(symbols, g, h, k);
  }

  lemma WrapSlotKeepsContent(symbols: seq<HirSymbol>, g: Graph, kind: HirRelKind, i: nat)
    requires Proper(symbols) && ContentIsSymbol(symbols, g) && CanWrapSlot(symbols, g, i)
    ensures ContentIsSymbol(symbols, WrapSlot(g, kind, symbols[i].elementId, ParentId(symbols, i)))
  {
    var slot, parent := symbols[i].elementId, ParentId(symbols, i);
    var h := WrapSlot(g, kind, slot, parent);
    var j := SlotIdsDiffer(symbols, i);
    forall c | IsContentIn(h, c) && h.elements[c].owner.Some?
      ensures IsSymbolId(symbols, c) ||
        (h.PresentOwner(c).Some? && h.elements[h.elements[c].owner.value].kind.IsRelationship())
    {
      WrapSlotAt(g, kind, slot, parent, c);
      assert IsContentIn(g, c);
      if c != slot && !IsSymbolId(symbols, c) {
        WrapSlotAt(g, kind, slot, parent, g.elements[c].owner.value);
      }
    }
  }

  lemma WrapSlotKeepsOwnersProper(symbols: seq<HirSymbol>, g: Graph, kind: HirRelKind, i: nat)
    requires Proper(symbols) && OwnersAreProper(symbols, g) && CanWrapSlot(symbols, g, i)
    ensures OwnersAreProper(symbols, WrapSlot(g, kind, symbols[i].elementId, ParentId(symbols, i)))
  {
    var slot, parent := symbols[i].elementId, ParentId(symbols, i);
    var h := WrapSlot(g, kind, slot, parent);
    var j := SlotIdsDiffer(symbols, i);
    forall x | x in h.elements && h.elements[x].owner.Some? ensures IsProperOwner(symbols, h.elements[x].owner.value) {
      WrapSlotAt(g, kind, slot, parent, x);
    }
  }

  lemma WrapSlotKeepsLevels(symbols: seq<HirSymbol>, g: Graph, kind: HirRelKind, i: nat, rank: map<Id, nat>)
    requires Proper(symbols) && Leveled(symbols, g, rank) && CanWrapSlot(symbols, g, i)
    ensures exists r: map<Id, nat> :: Leveled(symbols, WrapSlot(g, kind, symbols[i].elementId, ParentId(symbols, i)), r)
  {
    var h := WrapSlot(g, kind, symbols[i].elementId, ParentId(symbols, i));
    var r := rank[WrapId(symbols[i].elementId) := Level(symbols[i]) - 1];
    forall c | c in h.elements ensures LeveledAt(symbols, h, r, c) {
      WrapSlotLevelsAt(symbols, g, kind, i, rank, c);
    }
    assert Leveled(symbols, h, r);
  }

  lemma WrapSlotKeepsPlaced(symbols: seq<HirSymbol>, n: nat, g: Graph, kind: HirRelKind, i: nat)
    requires Proper(symbols) && CanWrapSlot(symbols, g, i) && AllPlaced(symbols, n, g)
    ensures AllPlaced(symbols, n, WrapSlot(g, kind, symbols[i].elementId, ParentId(symbols, i)))
  {
    forall k | 0 <= k < n && k < |symbols| && !symbols[k].IsImport()
      ensures SymbolPlaced(symbols, WrapSlot(g, kind, symbols[i].elementId, ParentId(symbols, i)), k)
    {
      if k == i {
        WrapSlotPlacesSlot(symbols, g, kind, i);
      } else {
        WrapSlotKeepsOther(symbols, g, kind, i, k);
      }
    }
  }

  lemma WrapSlotKeepsInvariant(symbols: seq<HirSymbol>, at: Progress, g: Graph, kind: HirRelKind, i: nat)
    requires Proper(symbols) && BuildInvariant(symbols, at, g) && CanWrapSlot(symbols, g, i) && i < at.symbols
    ensures BuildInvariant(symbols, at, WrapSlot(g, kind, symbols[i].elementId, ParentId(symbols, i)))
  {
    var j := SlotIdsDiffer(symbols, i);
    PlacedIsReady(symbols, g, i);
    WrapSlotKeepsStructured(g, kind, symbols[i].elementId, ParentId(symbols, i));
    WrapSlotKeepsAhead(symbols, at, g, kind, i);
    var rank: map<Id, nat> :| Leveled(symbols, g, rank);
    WrapSlotKeepsLevels(symbols, g, kind, i, rank);
    WrapSlotKeepsPlaced(symbols, at.symbols, g, kind, i);
    WrapSlotKeepsContent(symbols, g, kind, i);
    WrapSlotKeepsOwnersProper(symbols, g, kind, i);
  }

  // ---------------------------------------------------------------------------------------------
  // Values
  // ---------------------------------------------------------------------------------------------

  function LiteralElement(id: Id, value: Literal): Element {
    NewElement(LiteralId(id), FeatureOnly(value.kind))
      .(owner := Some(ValueId(id)), properties := map["value" := value.property])
  }

  function ValueElement(id: Id): Element {
    NewElement(ValueId(id), Relation(FeatureValue)).(owner := Some(id), owned := [LiteralId(id)])
  }

  lemma ValueIdsDiffer(id: Id)
    requires ClassOf(id) == Ordinary
    ensures id != ValueId(id) && id != LiteralId(id) && ValueId(id) != LiteralId(id)
    ensures ClassOf(ValueId(id)) == ValueClass && ClassOf(LiteralId(id)) == LiteralClass
  {
    ClassOfValue(id);
    ClassOfLiteral(id);
  }

  lemma EmitValueShape(g: Graph, id: Id, value: Literal)
    requires id in g.elements && Free(g, ValueId(id)) && Free(g, LiteralId(id)) && ClassOf(id) == Ordinary
    ensures var h, v, l := EmitValue(g, id, value), ValueId(id), LiteralId(id);
      && v != l && id != v && id != l
      && h.roots == g.roots && h.order == g.order + [l, v] && h.elements.Keys == g.elements.Keys + {v, l}
      && h.elements[v] == ValueElement(id) && h.elements[l] == LiteralElement(id, value)
      && h.elements[id] == g.elements[id].(owned := g.elements[id].owned + [v])
      && (forall x :: x in g.elements && x != id ==> h.elements[x] == g.elements[x])
  {
    ValueIdsDiffer(id);
    assert g.order + [LiteralId(id), ValueId(id)] == g.order + [LiteralId(id)] + [ValueId(id)];
  }

  lemma EmitValueAt(g: Graph, id: Id, value: Literal, x: Id)
    requires id in g.elements && Free(g, ValueId(id)) && Free(g, LiteralId(id)) && ClassOf(id) == Ordinary
    ensures var h, v, l := EmitValue(g, id, value), ValueId(id), LiteralId(id);
      && v != l && id != v && id != l
      && (x in h.elements <==> x in g.elements || x == v || x == l)
      && (x == v ==> h.elements[x] == ValueElement(id))
      && (x == l ==> h.elements[x] == LiteralElement(id, value))
      && (x in g.elements ==>
            h.elements[x] == g.elements[x].(owned := g.elements[x].owned + (if x == id then [v] else [])))
  {
    EmitValueShape(g, id, value);
    assert x in g.elements ==> g.elements[x].(owned := g.elements[x].owned + []) == g.elements[x];
  }

  lemma EmitValueKeepsKeys(g: Graph, id: Id, value: Literal)
    requires Structured(g) && id in g.elements
    requires Free(g, ValueId(id)) && Free(g, LiteralId(id)) && ClassOf(id) == Ordinary
    ensures var h := EmitValue(g, id, value); WellKeyed(h) && forall r :: r in h.roots ==> r in h.elements
  {
    EmitValueShape(g, id, value);
  }

  lemma EmitValueLists(g: Graph, id: Id, value: Literal, p: Id, c: Id)
    requires Lists(g) && id in g.elements
    requires Free(g, ValueId(id)) && Free(g, LiteralId(id)) && ClassOf(id) == Ordinary
    ensures ListsRightly(EmitValue(g, id, value), p, c)
  {
    EmitValueAt(g, id, value, p);
    EmitValueAt(g, id, value, c);
    assert ListsRightly(g, p, c);
  }

  lemma EmitValueListsOnce(g: Graph, id: Id, value: Literal, p: Id)
    requires Structured(g) && id in g.elements
    requires Free(g, ValueId(id)) && Free(g, LiteralId(id)) && ClassOf(id) == Ordinary
    requires p in EmitValue(g, id, value).elements
    ensures ListsContentOnce(EmitValue(g, id, value), EmitValue(g, id, value).elements[p].owned)
  {
    EmitValueAt(g, id, value, p);
    if p in g.elements {
      assert ListsContentOnce(g, g.elements[p].owned);
      assert ListsRightly(g, p, LiteralId(id)) && ListsRightly(g, p, ValueId(id));
      EmitValueShape(g, id, value);
    }
  }

  lemma EmitValueKeepsListing(g: Graph, id: Id, value: Literal)
    requires Structured(g) && id in g.elements
    requires Free(g, ValueId(id)) && Free(g, LiteralId(id)) && ClassOf(id) == Ordinary
    ensures ContentListedOnce(EmitValue(g, id, value))
  {
    var h := EmitValue(g, id, value);
    forall p | p in h.elements ensures ListsContentOnce(h, h.elements[p].owned) {
      EmitValueListsOnce(g, id, value, p);
    }
  }

  lemma EmitValueKeepsStructured(g: Graph, id: Id, value: Literal)
    requires Structured(g) && id in g.elements
    requires Free(g, ValueId(id)) && Free(g, LiteralId(id)) && ClassOf(id) == Ordinary
    ensures Structured(EmitValue(g, id, value))
  {
    var h := EmitValue(g, id, value);
    EmitValueKeepsKeys(g, id, value);
    EmitValueKeepsListing(g, id, value);
    forall p, c ensures ListsRightly(h, p, c) {
      EmitValueLists(g, id, value, p, c);
    }
  }

  /** Symbol `i` is placed and the ids for its value are still free. */
  ghost predicate CanEmitValue(symbols: seq<HirSymbol>, at: Progress, g: Graph, i: nat) {
    && i < |symbols| && !symbols[i].IsImport() && SymbolPlaced(symbols, g, i)
    && at.values <= i < at.symbols && Ahead(symbols, at, g)
  }

  lemma ValueIdsAreFree(symbols: seq<HirSymbol>, at: Progress, g: Graph, i: nat)
    requires Proper(symbols) && CanEmitValue(symbols, at, g, i)
    ensures Free(g, ValueId(symbols[i].elementId)) && Free(g, LiteralId(symbols[i].elementId))
  {
    assert IsAhead(symbols, at, ValueId(symbols[i].elementId));
    assert IsAhead(symbols, at, LiteralId(symbols[i].elementId));
  }

  lemma ValueHasCome(symbols: seq<HirSymbol>, at: Progress, i: nat)
    requires Proper(symbols) && i < |symbols| && i < at.values && i < at.symbols
    ensures HasCome(symbols, at, ValueId(symbols[i].elementId)) && HasCome(symbols, at, LiteralId(symbols[i].elementId))
  {
    var x := symbols[i].elementId;
    ValueIdsDiffer(x);
    forall k ensures RelId(k) != ValueId(x) && RelId(k) != LiteralId(x) {
      ClassOfRel(k);
    }
    forall j | 0 <= j < |symbols|
      ensures WrapId(symbols[j].elementId) != ValueId(x) && WrapId(symbols[j].elementId) != LiteralId(x)
      ensures j != i ==> ValueId(symbols[j].elementId) != ValueId(x) && LiteralId(symbols[j].elementId) != LiteralId(x)
      ensures ValueId(symbols[j].elementId) != LiteralId(x) && LiteralId(symbols[j].elementId) != ValueId(x)
    {
      var y := symbols[j].elementId;
      ClassOfWrap(y);
      ValueIdsDiffer(y);
      if ValueId(y) == ValueId(x) {
        AppendIsInjective(y, x, "-fv");
      }
      if LiteralId(y) == LiteralId(x) {
        AppendIsInjective(y, x, "-fv-lit");
      }
    }
  }

  lemma EmitValueKeepsAhead(symbols: seq<HirSymbol>, at: Progress, next: Progress, g: Graph, i: nat, value: Literal)
    requires Proper(symbols) && CanEmitValue(symbols, at, g, i) && Reaches(at, next) && i < next.values
    ensures Ahead(symbols, next, EmitValue(g, symbols[i].elementId, value))
  {
    var x := symbols[i].elementId;
    var h := EmitValue(g, x, value);
    ValueIdsAreFree(symbols, at, g, i);
    ValueHasCome(symbols, next, i);
    if IsAhead(symbols, next, x) {
      AheadIsGenerated(symbols, next, x);
    }
    forall y | y in h.elements && h.elements[y].owner.Some?
      ensures (y in g.elements && g.elements[y].owner == h.elements[y].owner)
                || !IsAhead(symbols, next, h.elements[y].owner.value)
    {
      EmitValueAt(g, x, value, y);
    }
    forall y | y in h.elements && y !in g.elements ensures HasCome(symbols, next, y) {
      EmitValueAt(g, x, value, y);
    }
    AheadGrows(symbols, at, g, next, h);
  }

  function ValueRanks(rank: map<Id, nat>, x: Id, level: nat): map<Id, nat> {
    rank[ValueId(x) := level + 1][LiteralId(x) := level + 2]
  }

  lemma ValueIdsAreNoSymbols(symbols: seq<HirSymbol>, i: nat)
    requires Proper(symbols) && i < |symbols|
    ensures var x := symbols[i].elementId;
      && (forall k :: 0 <= k < |symbols| ==> symbols[k].elementId != ValueId(x) && symbols[k].elementId != LiteralId(x))
      && (forall k :: 0 <= k < |symbols| && symbols[k].elementId == x ==> k == i)
  {
    ValueIdsDiffer(symbols[i].elementId);
  }

  lemma EmitValueLevelsOld(symbols: seq<HirSymbol>, g: Graph, i: nat, value: Literal, rank: map<Id, nat>, c: Id)
    requires Proper(symbols) && i < |symbols| && !symbols[i].IsImport() && Leveled(symbols, g, rank)
    requires var x := symbols[i].elementId; x in g.elements && Free(g, ValueId(x)) && Free(g, LiteralId(x))
    requires c in g.elements
    ensures var x := symbols[i].elementId;
      c in EmitValue(g, x, value).elements
          && LeveledAt(symbols, EmitValue(g, x, value), ValueRanks(rank, x, Level(symbols[i])), c)
  {
    var x := symbols[i].elementId;
    var h := EmitValue(g, x, value);
    EmitValueAt(g, x, value, c);
    assert LeveledAt(symbols, g, rank, c);
    if h.elements[c].owner.Some? {
      EmitValueAt(g, x, value, h.elements[c].owner.value);
    }
  }

  lemma EmitValueLevelsNew(symbols: seq<HirSymbol>, g: Graph, i: nat, value: Literal, rank: map<Id, nat>)
    requires Proper(symbols) && i < |symbols| && !symbols[i].IsImport() && Leveled(symbols, g, rank)
    requires var x := symbols[i].elementId; x in g.elements && Free(g, ValueId(x)) && Free(g, LiteralId(x))
    ensures var x := symbols[i].elementId;
      var h, r := EmitValue(g, x, value), ValueRanks(rank, x, Level(symbols[i]));
      && ValueId(x) in h.elements && LeveledAt(symbols, h, r, ValueId(x))
      && LiteralId(x) in h.elements && LeveledAt(symbols, h, r, LiteralId(x))
  {
    var x := symbols[i].elementId;
    ValueIdsAreNoSymbols(symbols, i);
    EmitValueAt(g, x, value, x);
    EmitValueAt(g, x, value, ValueId(x));
    EmitValueAt(g, x, value, LiteralId(x));
    assert LeveledAt(symbols, g, rank, x);
  }

  lemma EmitValueKeepsLevels(symbols: seq<HirSymbol>, g: Graph, i: nat, value: Literal, rank: map<Id, nat>)
    requires Proper(symbols) && i < |symbols| && !symbols[i].IsImport() && Leveled(symbols, g, rank)
    requires var x := symbols[i].elementId; x in g.elements && Free(g, ValueId(x)) && Free(g, LiteralId(x))
    ensures exists r: map<Id, nat> :: Leveled(symbols, EmitValue(g, symbols[i].elementId, value), r)
  {
    var x := symbols[i].elementId;
    var h, r := EmitValue(g, x, value), ValueRanks(rank, x, Level(symbols[i]));
    forall c | c in h.elements ensures LeveledAt(symbols, h, r, c) {
      EmitValueAt(g, x, value, c);
      if c in g.elements {
        EmitValueLevelsOld(symbols, g, i, value, rank, c);
      } else {
        EmitValueLevelsNew(symbols, g, i, value, rank);
      }
    }
    assert Leveled(symbols, h, r);
  }

  lemma EmitValueKeepsPlaced(symbols: seq<HirSymbol>, at: Progress, g: Graph, i: nat, value: Literal, k: nat)
    requires Proper(symbols) && CanEmitValue(symbols, at, g, i)
    requires k < |symbols| && !symbols[k].IsImport() && SymbolPlaced(symbols, g, k)
    ensures SymbolPlaced(symbols, EmitValue(g, symbols[i].elementId, value), k)
  {
    var x, y, w := symbols[i].elementId, symbols[k].elementId, WrapId(symbols[k].elementId);
    var h := EmitValue(g, x, value);
    ValueIdsAreFree(symbols, at, g, i);
    ValueIdsDiffer(x);
    ClassOfWrap(y);
    EmitValueAt(g, x, value, y);
    EmitValueAt(g, x, value, w);
    forall z | z in h.elements && h.elements[z].owner == Some(w)
      ensures z in g.elements && g.elements[z].owner == Some(w)
    {
      EmitValueAt(g, x, value, z);
    }
    PlacedUnchanged(symbols, g, h, k);
  }

  lemma EmitValueKeepsContent(symbols: seq<HirSymbol>, at: Progress, g: Graph, i: nat, value: Literal)
    requires Proper(symbols) && CanEmitValue(symbols, at, g, i) && ContentIsSymbol(symbols, g)
    requires OwnersAreProper(symbols, g)
    ensures ContentIsSymbol(symbols, EmitValue(g, symbols[i].elementId, value))
    ensures OwnersAreProper(symbols, EmitValue(g, symbols[i].elementId, value))
  {
    var x := symbols[i].elementId;
    var h := EmitValue(g, x, value);
    ValueIdsAreFree(symbols, at, g, i);
    ValueIdsDiffer(x);
    forall c | IsContentIn(h, c) && h.elements[c].owner.Some?
      ensures IsSymbolId(symbols, c) ||
        (h.PresentOwner(c).Some? && h.elements[h.elements[c].owner.value].kind.IsRelationship())
    {
      EmitValueAt(g, x, value, c);
      EmitValueAt(g, x, value, h.elements[c].owner.value);
    }
    forall c | c in h.elements && h.elements[c].owner.Some? ensures IsProperOwner(symbols, h.elements[c].owner.value) {
      EmitValueAt(g, x, value, c);
    }
  }

  lemma EmitValueKeepsInvariant(symbols: seq<HirSymbol>, at: Progress, next: Progress, g: Graph, i: nat, value: Literal)
    requires Proper(symbols) && BuildInvariant(symbols, at, g) && CanEmitValue(symbols, at, g, i)
    requires Reaches(at, next) && next.symbols == at.symbols && i < next.values
    ensures BuildInvariant(symbols, next, EmitValue(g, symbols[i].elementId, value))
  {
    ValueIdsAreFree(symbols, at, g, i);
    EmitValueKeepsStructured(g, symbols[i].elementId, value);
    EmitValueKeepsAhead(symbols, at, next, g, i, value);
    var rank: map<Id, nat> :| Leveled(symbols, g, rank);
    EmitValueKeepsLevels(symbols, g, i, value, rank);
    forall k | 0 <= k < next.symbols && k < |symbols| && !symbols[k].IsImport()
      ensures SymbolPlaced(symbols, EmitValue(g, symbols[i].elementId, value), k)
    {
      EmitValueKeepsPlaced(symbols, at, g, i, value, k);
    }
    EmitValueKeepsContent(symbols, at, g, i, value);
  }

  lemma RelistKeepsStructured(g: Graph, p: Id, c: Id)
    requires Structured(g) && p in g.elements && c in g.elements
    requires g.elements[c].owner == Some(p) && !IsContentIn(g, c)
    ensures Structured(g.SetOwned(p, g.OwnedOf(p) + [c]))
  {
    var h := g.SetOwned(p, g.OwnedOf(p) + [c]);
    forall q, x ensures ListsRightly(h, q, x) {
      assert ListsRightly(g, q, x);
    }
    forall q | q in h.elements ensures ListsContentOnce(h, h.elements[q].owned) {
    }
  }

  /** Listing a relationship once more under its owner. */
  lemma RelistKeepsInvariant(symbols: seq<HirSymbol>, at: Progress, g: Graph, p: Id, c: Id)
    requires BuildInvariant(symbols, at, g) && p in g.elements && c in g.elements
    requires g.elements[c].owner == Some(p) && !IsContentIn(g, c)
    ensures BuildInvariant(symbols, at, g.SetOwned(p, g.OwnedOf(p) + [c]))
  {
    RelistKeepsStructured(g, p, c);
    SameLinksKeepsInvariant(symbols, at, g, g.SetOwned(p, g.OwnedOf(p) + [c]));
  }

  /** The second run of the value block only lists the value once more. */
  lemma EmitValueTwice(g: Graph, id: Id, value: Literal)
    requires id in g.elements && Free(g, ValueId(id)) && Free(g, LiteralId(id)) && ClassOf(id) == Ordinary
    ensures var h := EmitValue(g, id, value);
      EmitValue(h, id, value) == h.SetOwned(id, h.OwnedOf(id) + [ValueId(id)])
  {
    EmitValueShape(g, id, value);
    var h := EmitValue(g, id, value);
    assert h.Add(LiteralElement(id, value)) == h;
    assert h.Add(ValueElement(id)) == h;
  }

  // ---------------------------------------------------------------------------------------------
  // Placing a symbol
  // ---------------------------------------------------------------------------------------------

  lemma {:induction false} ChildrenAreDistinct(g: Graph, ids: seq<Id>, p: Id)
    requires NoDuplicates(ids)
    ensures NoDuplicates(ChildrenOf(g, ids, p))
  {
    if ids != [] {
      assert NoDuplicates(ids[1..]) by {
        forall i, j | 0 <= i < j < |ids[1..]| ensures ids[1..][i] != ids[1..][j] {
          assert ids[i + 1] != ids[j + 1];
        }
      }
      ChildrenAreDistinct(g, ids[1..], p);
      assert ids[0] !in ids[1..];
    }
  }

  lemma RebuildIsStructured(g: Graph)
    requires WellKeyed(g) && forall r :: r in g.roots ==> r in g.elements
    ensures Structured(RebuildOwned(g)) && SameLinks(g, RebuildOwned(g))
  {
    var h := RebuildOwned(g);
    forall p, c ensures ListsRightly(h, p, c) {
    }
    forall p | p in h.elements ensures ListsContentOnce(h, h.elements[p].owned) {
      ChildrenAreDistinct(g, g.order, p);
    }
  }

  /** A symbol whose turn it is, with its element added. */
  ghost predicate IsNext(symbols: seq<HirSymbol>, at: Progress, i: nat) {
    i < |symbols| && at.symbols == i && at.values <= i && !symbols[i].IsImport()
  }

  function NextElement(symbols: seq<HirSymbol>, i: nat): (e: Element)
    requires i < |symbols|
    ensures e.id == symbols[i].elementId && e.kind == ElementKindOf(symbols[i].kind) && e.owned == []
    ensures e.name == Some(symbols[i].name) && e.qualifiedName == Some(symbols[i].qualifiedName)
    ensures e.owner == OwnerId(NameMap(symbols), symbols[i]) && e.relationship.None?
  {
    SymbolElement(symbols[i], OwnerId(NameMap(symbols), symbols[i]))
  }

  lemma AddSymbolShape(symbols: seq<HirSymbol>, at: Progress, g: Graph, i: nat)
    requires BuildInvariant(symbols, at, g) && IsNext(symbols, at, i)
    ensures var h, e := g.Add(NextElement(symbols, i)), NextElement(symbols, i);
      && e.id !in g.elements && h.order == g.order + [e.id] && h.elements == g.elements[e.id := e]
      && WellKeyed(h) && (forall r :: r in h.roots ==> r in h.elements)
  {
  }

  lemma AddSymbolKeepsAhead(symbols: seq<HirSymbol>, at: Progress, g: Graph, i: nat)
    requires Proper(symbols) && BuildInvariant(symbols, at, g) && IsNext(symbols, at, i)
    ensures Ahead(symbols, at.(symbols := i + 1), g.Add(NextElement(symbols, i)))
  {
    AddSymbolShape(symbols, at, g, i);
    var next, e := at.(symbols := i + 1), NextElement(symbols, i);
    if IsAhead(symbols, next, e.id) {
      AheadIsGenerated(symbols, next, e.id);
    }
    if e.owner.Some? {
      var j := OwnerIsSymbol(symbols, i);
      if IsAhead(symbols, next, e.owner.value) {
        AheadIsGenerated(symbols, next, e.owner.value);
      }
    }
    AheadGrows(symbols, at, g, next, g.Add(e));
  }

  lemma SameIdSameSymbol(symbols: seq<HirSymbol>, i: nat, k: nat)
    requires Proper(symbols) && i < |symbols| && k < |symbols| && symbols[i].elementId == symbols[k].elementId
    ensures i == k
  {
  }

  lemma AddSymbolLevelsNew(symbols: seq<HirSymbol>, g: Graph, e: Element, i: nat, rank: map<Id, nat>)
    requires Proper(symbols) && i < |symbols| && !symbols[i].IsImport() && e.id == symbols[i].elementId
    requires e.owner == OwnerId(NameMap(symbols), symbols[i])
    requires Leveled(symbols, g, rank)
    ensures e.id in g.Add(e).elements && LeveledAt(symbols, g.Add(e), rank[e.id := Level(symbols[i])], e.id)
  {
    hide Proper, OwnerId, NameMap;
    forall k | 0 <= k < |symbols| && symbols[k].elementId == e.id ensures k == i {
      SameIdSameSymbol(symbols, i, k);
    }
    if e.owner.Some? {
      var j := OwnerIsSymbol(symbols, i);
      forall k | 0 <= k < |symbols| && symbols[k].elementId == e.owner.value ensures k == j {
        SameIdSameSymbol(symbols, j, k);
      }
      assert e.owner.value in g.elements ==> LeveledAt(symbols, g, rank, e.owner.value);
    }
  }

  lemma AddSymbolKeepsLevels(symbols: seq<HirSymbol>, g: Graph, i: nat, rank: map<Id, nat>)
    requires Proper(symbols) && i < |symbols| && !symbols[i].IsImport() && symbols[i].elementId !in g.elements
    requires Leveled(symbols, g, rank)
    ensures Leveled(symbols, g.Add(NextElement(symbols, i)), rank[symbols[i].elementId := Level(symbols[i])])
  {
    var e := NextElement(symbols, i);
    forall c | c in g.Add(e).elements ensures LeveledAt(symbols, g.Add(e), rank[e.id := Level(symbols[i])], c) {
      if c == e.id {
        AddSymbolLevelsNew(symbols, g, e, i, rank);
      } else {
        assert LeveledAt(symbols, g, rank, c);
      }
    }
  }

  lemma AddSymbolPlaces(symbols: seq<HirSymbol>, at: Progress, g: Graph, i: nat, k: nat)
    requires Proper(symbols) && BuildInvariant(symbols, at, g) && IsNext(symbols, at, i)
    requires k <= i && !symbols[k].IsImport()
    ensures SymbolPlaced(symbols, g.Add(NextElement(symbols, i)), k)
  {
    AddSymbolShape(symbols, at, g, i);
    var e, w := NextElement(symbols, i), WrapId(symbols[k].elementId);
    ClassOfWrap(symbols[k].elementId);
    if e.owner.Some? {
      var j := OwnerIsSymbol(symbols, i);
    }
    assert e.owner != Some(w);
    if k == i {
      assert IsAhead(symbols, at, w);
      assert Free(g, w);
    } else {
      assert SymbolPlaced(symbols, g, k);
      PlacedUnchanged(symbols, g, g.Add(e), k);
    }
  }

  lemma AddSymbolKeepsRoles(symbols: seq<HirSymbol>, at: Progress, g: Graph, i: nat)
    requires Proper(symbols) && BuildInvariant(symbols, at, g) && IsNext(symbols, at, i)
    ensures ContentIsSymbol(symbols, g.Add(NextElement(symbols, i)))
    ensures OwnersAreProper(symbols, g.Add(NextElement(symbols, i)))
  {
    hide Structured, Leveled, AllPlaced, ElementKindOf, ClassOf, IsAhead, NameMap;
    var e := NextElement(symbols, i);
    assert IsSymbolId(symbols, e.id);
    if e.owner.Some? {
      var j := OwnerIsSymbol(symbols, i);
    }
  }

  lemma AddSymbolLinks(symbols: seq<HirSymbol>, at: Progress, g: Graph, i: nat)
    requires Proper(symbols) && BuildInvariant(symbols, at, g) && IsNext(symbols, at, i)
    ensures Linked(symbols, at.(symbols := i + 1), g.Add(NextElement(symbols, i)))
  {
    AddSymbolShape(symbols, at, g, i);
    AddSymbolKeepsAhead(symbols, at, g, i);
    var rank: map<Id, nat> :| Leveled(symbols, g, rank);
    AddSymbolKeepsLevels(symbols, g, i, rank);
    forall k | 0 <= k < i + 1 && k < |symbols| && !symbols[k].IsImport()
      ensures SymbolPlaced(symbols, g.Add(NextElement(symbols, i)), k)
    {
      AddSymbolPlaces(symbols, at, g, i, k);
    }
    AddSymbolKeepsRoles(symbols, at, g, i);
  }

  lemma RebuildKeepsInvariant(symbols: seq<HirSymbol>, at: Progress, g: Graph)
    requires Linked(symbols, at, g)
    ensures BuildInvariant(symbols, at, RebuildOwned(g))
  {
    RebuildIsStructured(g);
    SameLinksKeepsLinked(symbols, at, g, RebuildOwned(g));
  }

  lemma PlaceSymbolKeepsInvariant(symbols: seq<HirSymbol>, at: Progress, g: Graph, i: nat)
    requires Proper(symbols) && BuildInvariant(symbols, at, g) && IsNext(symbols, at, i)
    ensures BuildInvariant(symbols, at.(symbols := i + 1),
                      RebuildOwned(g.Add(SymbolElement(symbols[i], OwnerId(NameMap(symbols), symbols[i])))))
  {
    AddSymbolLinks(symbols, at, g, i);
    RebuildKeepsInvariant(symbols, at.(symbols := i + 1), g.Add(NextElement(symbols, i)));
  }
}
