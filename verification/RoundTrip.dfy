/** Encoding symbols as a model and decoding the model again: what comes back, and exactly when the
    relationships come back unchanged. */
module RoundTrip {
  import opened Wrappers
  import opened ElementKinds
  import opened ModelGraph
  import opened Wrapping
  import opened Names
  import opened Integrate
  import opened GeneratedIds
  import opened EncodeSteps
  import opened EncodeSound
  import opened EncodeViews

  // ---------------------------------------------------------------------------------------------
  // What comes back
  // ---------------------------------------------------------------------------------------------

  /** The relationships as they are meant to come back: references dropped, targets resolved. */
  function Kept(rels: seq<HirRelationship>): seq<HirRelationship> {
    if rels == [] then []
    else
      (if rels[0].kind == References then []
       else [HirRelationship(rels[0].kind, rels[0].resolvedTarget.GetOr(""), rels[0].resolvedTarget)])
      + Kept(rels[1..])
  }

  /** The relationships as they come back when the slot's keyword is `keyword`. */
  function Returned(rels: seq<HirRelationship>, keyword: Option<HirRelKind>): seq<HirRelationship> {
    if rels == [] then []
    else
      var target := rels[0].resolvedTarget.GetOr("");
      (if rels[0].kind == References then []
       else if !rels[0].kind.IsSpecial() then [HirRelationship(rels[0].kind, target, Some(target))]
       else if keyword.Some? then [HirRelationship(keyword.value, target, Some(target))]
       else [])
      + Returned(rels[1..], keyword)
  }

  /** Every special relationship carries the slot's keyword. */
  predicate KeywordsAgree(rels: seq<HirRelationship>, keyword: Option<HirRelKind>) {
    forall k :: 0 <= k < |rels| && rels[k].kind.IsSpecial() ==> keyword == Some(rels[k].kind)
  }

  lemma {:induction false} ReturnedLength(rels: seq<HirRelationship>, keyword: Option<HirRelKind>)
    ensures |Returned(rels, keyword)| <= |Kept(rels)|
    ensures keyword.None? && |Returned(rels, keyword)| == |Kept(rels)| ==> KeywordsAgree(rels, keyword)
  {
    if rels != [] {
      ReturnedLength(rels[1..], keyword);
      assert forall k :: 1 <= k < |rels| ==> rels[k] == rels[1..][k - 1];
    }
  }

  /** The relationships come back unchanged exactly when the keywords agree. */
  lemma {:induction false} ReturnedIsKept(names: map<string, Id>, rels: seq<HirRelationship>,
          keyword: Option<HirRelKind>)
    requires AllResolved(names, rels)
    ensures Returned(rels, keyword) == Kept(rels) <==> KeywordsAgree(rels, keyword)
  {
    if rels != [] {
      assert forall k :: 1 <= k < |rels| ==> rels[k] == rels[1..][k - 1];
      ReturnedIsKept(names, rels[1..], keyword);
      ReturnedLength(rels[1..], keyword);
      var a, b := Returned(rels, keyword), Kept(rels);
      if rels[0].kind == References || (rels[0].kind.IsSpecial() && keyword.None?) {
        assert a == Returned(rels[1..], keyword);
      } else {
        assert a[1..] == Returned(rels[1..], keyword);
      }
      if rels[0].kind == References {
        assert b == Kept(rels[1..]);
      } else {
        assert b[1..] == Kept(rels[1..]);
      }
    }
  }

  /** The keyword that an element kind stands for by itself. */
  function KindKeyword(kind: ElementKind): Option<HirRelKind> {
    match kind
    case Usage(PerformActionUsage) => Some(Performs)
    case Usage(IncludeUseCaseUsage) => Some(Includes)
    case Usage(ExhibitStateUsage) => Some(Exhibits)
    case Usage(AssertConstraintUsage) => Some(Asserts)
    case Usage(Satisfaction) => Some(Satisfies)
    case _ => None
  }

  /** The keyword under which all special relationships of a symbol come back: that of the last
      relationship that wraps its slot, or else the one its kind stands for. */
  function Keyword(names: map<string, Id>, s: HirSymbol): Option<HirRelKind> {
    if OwnerId(names, s).Some? && LastGroupB(s.relationships).Some? then LastGroupB(s.relationships)
    else KindKeyword(ElementKindOf(s.kind))
  }

  function ReturnedSymbol(names: map<string, Id>, s: HirSymbol): HirSymbol {
    var rels := Returned(s.relationships, Keyword(names, s));
    HirSymbol(s.name, s.qualifiedName, s.elementId, SymbolKindOf(ElementKindOf(s.kind)), SpecializedTargets(rels), rels,
              None, None)
  }

  function ReturnedSymbols(names: map<string, Id>, symbols: seq<HirSymbol>): (r: seq<HirSymbol>)
    ensures |r| == |symbols| && forall i :: 0 <= i < |r| ==> r[i] == ReturnedSymbol(names, symbols[i])
  {
    if symbols == [] then []
    else ReturnedSymbols(names, symbols[..|symbols| - 1]) + [ReturnedSymbol(names, symbols[|symbols| - 1])]
  }

  // ---------------------------------------------------------------------------------------------
  // Decoding views
  // ---------------------------------------------------------------------------------------------

  lemma DecodeView(g: Graph, source: Element, e: Element)
    ensures DecodeKind(g, EdgeView(e), source) == DecodeKind(g, e, source)
    ensures DecodedTarget(g, EdgeView(e)) == DecodedTarget(g, e)
  {
  }

  /** Decoding looks at edges only through their views. */
  lemma {:induction false} DecodeViews(g: Graph, source: Element, ids: seq<Id>, x: Id)
    ensures DecodeEdges(g, source, EdgesFrom(g, ids, x)) == DecodeEdges(g, source, ViewsFrom(g, ids, x))
  {
    if ids != [] {
      DecodeViews(g, source, ids[1..], x);
      if ids[0] in g.elements && IsEdgeFrom(g.elements[ids[0]], x) {
        var e, edges, views := g.elements[ids[0]], EdgesFrom(g, ids, x), ViewsFrom(g, ids, x);
        assert edges[0] == e && edges[1..] == EdgesFrom(g, ids[1..], x);
        assert views[0] == EdgeView(e) && views[1..] == ViewsFrom(g, ids[1..], x);
        DecodeView(g, source, e);
      } else {
        assert EdgesFrom(g, ids, x) == EdgesFrom(g, ids[1..], x);
        assert ViewsFrom(g, ids, x) == ViewsFrom(g, ids[1..], x);
      }
    }
  }

  /** Every name that a symbol has is the qualified name of the element behind it. */
  ghost predicate NamesPresent(names: map<string, Id>, g: Graph) {
    forall q :: q in names ==> names[q] in g.elements && g.elements[names[q]].qualifiedName == Some(q)
  }

  lemma DecodeEncodedView(names: map<string, Id>, g: Graph, source: Element, s: HirSymbol, rel: HirRelationship,
                          keyword: Option<HirRelKind>)
    requires NamesPresent(names, g) && IsResolved(names, rel) && SpecialKind(g, source) == Result.Ok(keyword)
    ensures var view := EncodedView(names, s, rel);
      && DecodeKind(g, view, source) == Result.Ok(if rel.kind.IsSpecial() then keyword else Some(rel.kind))
      && DecodedTarget(g, view) == rel.resolvedTarget.value
  {
    hide SpecialKind;
  }

  lemma {:induction false} DecodeEncodedViews(names: map<string, Id>, g: Graph, source: Element, s: HirSymbol,
                                             rels: seq<HirRelationship>, keyword: Option<HirRelKind>)
    requires NamesPresent(names, g) && AllResolved(names, rels) && SpecialKind(g, source) == Result.Ok(keyword)
    ensures DecodeEdges(g, source, EncodedViews(names, s, rels)) == Result.Ok(Returned(rels, keyword))
  {
    hide SpecialKind, NamesPresent, DecodeKind, DecodedTarget, EncodedView;
    if rels != [] {
      assert AllResolved(names, rels[1..]) by {
        assert forall k :: 0 <= k < |rels[1..]| ==> rels[1..][k] == rels[k + 1];
      }
      DecodeEncodedViews(names, g, source, s, rels[1..], keyword);
      var views := EncodedViews(names, s, rels);
      if rels[0].kind == References {
        assert views == EncodedViews(names, s, rels[1..]);
        assert Returned(rels, keyword) == Returned(rels[1..], keyword);
      } else {
        assert IsResolved(names, rels[0]);
        assert views[0] == EncodedView(names, s, rels[0]) && views[1..] == EncodedViews(names, s, rels[1..]);
        DecodeEncodedView(names, g, source, s, rels[0], keyword);
        if rels[0].kind.IsSpecial() && keyword.None? {
          assert Returned(rels, keyword) == Returned(rels[1..], keyword);
        }
      }
    }
  }

  // ---------------------------------------------------------------------------------------------
  // The wrapping pass does not show
  // ---------------------------------------------------------------------------------------------

  /** What decoding an element sees of it, its edges left aside. */
  ghost predicate SameFace(g: Graph, h: Graph, x: Id) {
    && x in g.elements && x in h.elements
    && h.elements[x] == g.elements[x].(owner := h.elements[x].owner, owned := h.elements[x].owned)
    && SpecialKind(h, h.elements[x]) == SpecialKind(g, g.elements[x])
  }

  /** The keyword is read off the owner's kind and properties, unless the owner is no special wrapper. */
  ghost predicate SaysAlike(g: Graph, e: Element, h: Graph, f: Element) {
    && e.kind == f.kind
    && (if IsPlainlyOwned(g, e) then IsPlainlyOwned(h, f)
        else
          && f.owner == e.owner && f.owner.value in h.elements
          && h.elements[f.owner.value].kind == g.elements[e.owner.value].kind
          && h.elements[f.owner.value].properties == g.elements[e.owner.value].properties)
  }

  ghost predicate IsPlainlyOwned(g: Graph, e: Element) {
    e.owner.Some? && e.owner.value in g.elements ==>
      g.elements[e.owner.value].kind !in {Relation(RequirementConstraintMembership), Relation(Verification)}
  }

  lemma AlikeIsSame(g: Graph, e: Element, h: Graph, f: Element)
    requires SaysAlike(g, e, h, f)
    ensures SpecialKind(g, e) == SpecialKind(h, f)
  {
  }

  lemma WrapOneFace(g: Graph, it: WrapItem, x: Id)
    requires Sound(g) && Applies(g, it) && x in g.elements
    ensures SameFace(g, WrapOne(g, it), x)
  {
    hide WrapOne, SpecialKind, Sound, NeedsWrap, Unmentioned;
    WrapOneShape(g, it);
    AppliedIsPlain(g, it, x);
    AlikeIsSame(g, g.elements[x], WrapOne(g, it), WrapOne(g, it).elements[x]);
  }

  /** A child that gets wrapped has content for an owner, and nobody is owned by the wrapper yet. */
  lemma AppliedIsPlain(g: Graph, it: WrapItem, x: Id)
    requires Applies(g, it) && x in g.elements
    ensures IsPlainlyOwned(g, g.elements[it.child]) && g.elements[x].owner != Some(WrapId(it.child))
    ensures it.child in g.elements && it.parent in g.elements && IsContentIn(g, it.child)
    ensures g.elements[it.parent].kind.IsContent()
    ensures it.child in g.order ==> it.child != WrapId(it.child)
  {
  }

  lemma WrapOneViews(g: Graph, it: WrapItem, x: Id)
    requires Sound(g) && Applies(g, it)
    ensures var h := WrapOne(g, it);
      ViewsFrom(h, h.order, x) == ViewsFrom(g, g.order, x) && ContentOf(h, h.order) == ContentOf(g, g.order)
  {
    hide WrapOne, Sound, Applies, SameSight;
    var h, w := WrapOne(g, it), WrapId(it.child);
    WrapOneShape(g, it);
    forall id | id in g.order ensures SameSight(g, h, id) {
      WrapOneSight(g, it, id);
    }
    ContinuesViews(g, h, [w], x);
    assert ViewsFrom(h, [w], x) == [] + ViewsFrom(h, [], x);
    assert ContentOf(h, [w]) == [] + ContentOf(h, []);
  }

  lemma WrapOneSight(g: Graph, it: WrapItem, id: Id)
    requires Sound(g) && Applies(g, it) && id in g.order
    ensures SameSight(g, WrapOne(g, it), id)
  {
    hide WrapOne, NeedsWrap, Unmentioned, OwnershipAgrees, ContentListedOnce, Acyclic;
    WrapOneShape(g, it);
    AppliedIsPlain(g, it, id);
  }

  lemma {:induction false} WrapListViews(g: Graph, items: seq<WrapItem>, x: Id)
    requires Sound(g) && AllApply(g, items)
    ensures var h := WrapList(g, items);
      ViewsFrom(h, h.order, x) == ViewsFrom(g, g.order, x) && ContentOf(h, h.order) == ContentOf(g, g.order)
    decreases |items|
  {
    hide Sound, Applies, ViewsFrom, ContentOf, WrapOne;
    if items != [] {
      AllApplyRest(g, items);
      WrapOneViews(g, items[0], x);
      WrapListViews(WrapOne(g, items[0]), items[1..], x);
    }
  }

  lemma {:induction false} WrapListFace(g: Graph, items: seq<WrapItem>, x: Id)
    requires Sound(g) && AllApply(g, items) && x in g.elements
    ensures SameFace(g, WrapList(g, items), x)
    decreases |items|
  {
    hide Sound, Applies, SpecialKind, WrapOne;
    if items != [] {
      AllApplyRest(g, items);
      WrapOneFace(g, items[0], x);
      WrapListFace(WrapOne(g, items[0]), items[1..], x);
    }
  }

  // ---------------------------------------------------------------------------------------------
  // The finished model
  // ---------------------------------------------------------------------------------------------

  lemma MarkedKeyword(g: Graph, x: Id, kind: HirRelKind)
    requires kind.IsGroupB() && SlotMark(g, x) == Some(MarkOf(kind))
    ensures SpecialKind(g, g.elements[x]) == Result.Ok(Some(kind))
  {
  }

  lemma PlainKeyword(g: Graph, e: Element)
    requires e.owner.Some? && e.owner.value in g.elements ==> g.elements[e.owner.value].kind.IsContent()
    ensures SpecialKind(g, e) == Result.Ok(KindKeyword(e.kind))
  {
  }

  lemma {:induction false} LastGroupBIsGroupB(rels: seq<HirRelationship>)
    ensures LastGroupB(rels).Some? ==> LastGroupB(rels).value.IsGroupB()
  {
    if rels != [] {
      LastGroupBIsGroupB(rels[1..]);
    }
  }

  /** Before wrapping, the keyword that decoding finds at a symbol is the expected one. */
  lemma BuiltKeyword(symbols: seq<HirSymbol>, g: Graph, i: nat)
    requires Proper(symbols) && Resolved(symbols) && Built(symbols, g) && EncodedSight(symbols, |symbols|, g)
    requires i < |symbols|
    ensures symbols[i].elementId in g.elements
    ensures SpecialKind(g, g.elements[symbols[i].elementId]) == Result.Ok(Keyword(NameMap(symbols), symbols[i]))
  {
    hide SpecialKind, EncodedViews, ViewsFrom, ElementKindOf, KindKeyword, Structured, Leveled;
    var s, x, names := symbols[i], symbols[i].elementId, NameMap(symbols);
    assert SymbolPlaced(symbols, g, i) && EncodedAt(symbols, |symbols|, g, i);
    if OwnerId(names, s).Some? && LastGroupB(s.relationships).Some? {
      LastGroupBIsGroupB(s.relationships);
      MarkedKeyword(g, x, LastGroupB(s.relationships).value);
    } else {
      if OwnerId(names, s).Some? {
        var j := OwnerIsSymbol(symbols, i);
        assert SymbolPlaced(symbols, g, j);
        SymbolElementIsContent(symbols[j].kind);
      }
      PlainKeyword(g, g.elements[x]);
    }
  }

  lemma BuiltNames(symbols: seq<HirSymbol>, g: Graph)
    requires Proper(symbols) && Resolved(symbols) && Built(symbols, g)
    ensures NamesPresent(NameMap(symbols), g)
  {
    forall q | q in NameMap(symbols)
      ensures NameMap(symbols)[q] in g.elements && g.elements[NameMap(symbols)[q]].qualifiedName == Some(q)
    {
      var i := NameMapKeys(symbols, q);
      assert SymbolPlaced(symbols, g, i);
    }
  }

  lemma WrapKeepsNames(names: map<string, Id>, g: Graph, items: seq<WrapItem>)
    requires Sound(g) && AllApply(g, items) && NamesPresent(names, g)
    ensures NamesPresent(names, WrapList(g, items))
  {
    hide Sound, AllApply, SpecialKind, WrapList;
    forall q | q in names
      ensures names[q] in WrapList(g, items).elements && WrapList(g, items).elements[names[q]].qualifiedName == Some(q)
    {
      WrapListFace(g, items, names[q]);
    }
  }

  /** The finished model as decoding sees it. */
  ghost predicate Finished(symbols: seq<HirSymbol>, m: Graph)
    requires Resolved(symbols)
  {
    && NamesPresent(NameMap(symbols), m)
    && ContentOf(m, m.order) == IdsOf(symbols)
    && (forall i :: 0 <= i < |symbols| ==> FinishedAt(symbols, m, i))
  }

  ghost predicate FinishedAt(symbols: seq<HirSymbol>, m: Graph, i: nat)
    requires i < |symbols| && AllResolved(NameMap(symbols), symbols[i].relationships)
  {
    var s, names := symbols[i], NameMap(symbols);
    && s.elementId in m.elements
    && (var e := m.elements[s.elementId];
        && e.id == s.elementId && e.name == Some(s.name) && e.qualifiedName == Some(s.qualifiedName)
        && e.kind == ElementKindOf(s.kind)
        && SpecialKind(m, e) == Result.Ok(Keyword(names, s)))
    && ViewsFrom(m, m.order, s.elementId) == EncodedViews(names, s, s.relationships)
  }

  lemma ModelAt(symbols: seq<HirSymbol>, scan: map<(string, string), Id>, g: Graph, items: seq<WrapItem>, i: nat)
    requires Proper(symbols) && Resolved(symbols) && Built(symbols, g) && EncodedSight(symbols, |symbols|, g)
    requires i < |symbols|
    requires Sound(g) && AllApply(g, items)
    ensures FinishedAt(symbols, WrapList(g, items), i)
  {
    hide Sound, AllApply, SpecialKind, WrapList, ViewsFrom, EncodedViews, Keyword, ElementKindOf, SlotMark, MarkAfter,
         Leveled, Lists;
    BuiltKeyword(symbols, g, i);
    WrapListFace(g, items, symbols[i].elementId);
    WrapListViews(g, items, symbols[i].elementId);
    assert SymbolPlaced(symbols, g, i) && EncodedAt(symbols, |symbols|, g, i);
  }

  lemma ModelIsFinished(symbols: seq<HirSymbol>, scan: map<(string, string), Id>)
    requires Proper(symbols) && Resolved(symbols)
    ensures Finished(symbols, ModelFromSymbols(symbols, scan))
  {
    hide Sound, AllApply, NamesPresent, WrapList, Built, FinishedAt, ContentOf, AllResolved, Proper, EncodedAt,
         WrapIdsFree;
    var g := Unwrapped(symbols, scan);
    var items := ItemsToWrap(g, g.order);
    UnwrappedIsBuilt(symbols, scan);
    BuiltIsSound(symbols, g);
    BuiltWrapIdsFree(symbols, g);
    assert NoDuplicates(g.order) by {
      BuiltKeys(symbols, g);
    }
    ItemsToWrapComplete(g, g.order);
    assert symbols[..|symbols|] == symbols;
    PrefixSight(symbols, scan, |symbols|);
    BuiltNames(symbols, g);
    WrapKeepsNames(NameMap(symbols), g, items);
    WrapListViews(g, items, "");
    forall i | 0 <= i < |symbols| ensures FinishedAt(symbols, WrapList(g, items), i) {
      ModelAt(symbols, scan, g, items, i);
    }
  }

  lemma BuiltKeys(symbols: seq<HirSymbol>, g: Graph)
    requires Built(symbols, g)
    ensures NoDuplicates(g.order)
  {
  }

  // ---------------------------------------------------------------------------------------------
  // Decoding the finished model
  // ---------------------------------------------------------------------------------------------

  lemma DecodeFinishedElement(symbols: seq<HirSymbol>, m: Graph, i: nat)
    requires Resolved(symbols) && Finished(symbols, m) && i < |symbols|
    ensures symbols[i].elementId in m.elements
    ensures DecodeElement(m, m.elements[symbols[i].elementId]) ==
              Result.Ok(ReturnedSymbol(NameMap(symbols), symbols[i]))
  {
    hide SpecialKind, ViewsFrom, EncodedViews, Keyword, NamesPresent, ContentOf, Returned, SpecializedTargets,
         DecodeEdges, EdgesFrom;
    var s, names := symbols[i], NameMap(symbols);
    assert FinishedAt(symbols, m, i);
    var e := m.elements[s.elementId];
    DecodeViews(m, e, m.order, s.elementId);
    DecodeEncodedViews(names, m, e, s, s.relationships, Keyword(names, s));
  }

  /** Only content is decoded. */
  lemma {:induction false} DecodeContent(m: Graph, ids: seq<Id>)
    ensures DecodeElements(m, ids) == DecodeElements(m, ContentOf(m, ids))
  {
    hide DecodeElement;
    if ids != [] {
      DecodeContent(m, ids[1..]);
      var content := ContentOf(m, ids);
      if IsContentIn(m, ids[0]) {
        assert content[0] == ids[0] && content[1..] == ContentOf(m, ids[1..]);
      } else {
        assert content == ContentOf(m, ids[1..]);
      }
    }
  }

  lemma {:induction false} DecodeConcat(m: Graph, a: seq<Id>, b: seq<Id>)
    requires DecodeElements(m, a).Ok? && DecodeElements(m, b).Ok?
    ensures DecodeElements(m, a + b) == Result.Ok(DecodeElements(m, a).value + DecodeElements(m, b).value)
  {
    hide DecodeElement;
    if a == [] {
      assert a + b == b;
      assert DecodeElements(m, a).value + DecodeElements(m, b).value == DecodeElements(m, b).value;
    } else {
      assert (a + b)[0] == a[0] && (a + b)[1..] == a[1..] + b;
      DecodeConcat(m, a[1..], b);
      if IsContentIn(m, a[0]) {
        var first := DecodeElement(m, m.elements[a[0]]).value;
        assert [first] + (DecodeElements(m, a[1..]).value + DecodeElements(m, b).value)
               == ([first] + DecodeElements(m, a[1..]).value) + DecodeElements(m, b).value;
      }
    }
  }

  lemma DecodeOne(symbols: seq<HirSymbol>, m: Graph, i: nat)
    requires Resolved(symbols) && Finished(symbols, m) && i < |symbols|
    ensures DecodeElements(m, [symbols[i].elementId]) == Result.Ok([ReturnedSymbol(NameMap(symbols), symbols[i])])
  {
    hide DecodeElement, NamesPresent, ContentOf, SpecialKind, ViewsFrom, EncodedViews;
    DecodeFinishedElement(symbols, m, i);
    SymbolElementIsContent(symbols[i].kind);
    assert FinishedAt(symbols, m, i);
    var x := symbols[i].elementId;
    assert [x][0] == x && [x][1..] == [];
    assert DecodeElements(m, []) == Result.Ok([]);
    var r := ReturnedSymbol(NameMap(symbols), symbols[i]);
    assert [r] + [] == [r];
  }

  lemma {:induction false} DecodePrefix(symbols: seq<HirSymbol>, m: Graph, n: nat)
    requires Resolved(symbols) && Finished(symbols, m) && n <= |symbols|
    ensures DecodeElements(m, IdsOf(symbols[..n])) == Result.Ok(ReturnedSymbols(NameMap(symbols), symbols[..n]))
  {
    hide DecodeElement, Finished, ReturnedSymbol, Resolved;
    if n > 0 {
      DecodePrefix(symbols, m, n - 1);
      DecodeOne(symbols, m, n - 1);
      assert symbols[..n][..n - 1] == symbols[..n - 1] && symbols[..n][n - 1] == symbols[n - 1];
      DecodeConcat(m, IdsOf(symbols[..n - 1]), [symbols[n - 1].elementId]);
    }
  }

  /** Encoding a list of symbols with resolved relationships and decoding the model gives the symbols back in
      order: name, qualified name and id as they were, the kind through the kind conversion, and the
      relationships with their resolved targets, the special ones under the symbol's one keyword. */
  lemma DecodeUndoesEncode(symbols: seq<HirSymbol>, scan: map<(string, string), Id>)
    requires Proper(symbols) && Resolved(symbols)
    ensures SymbolsFromModel(ModelFromSymbols(symbols, scan)) == Result.Ok(ReturnedSymbols(NameMap(symbols), symbols))
  {
    var m := ModelFromSymbols(symbols, scan);
    ModelIsFinished(symbols, scan);
    DecodeContent(m, m.order);
    assert symbols[..|symbols|] == symbols;
    DecodePrefix(symbols, m, |symbols|);
  }

  /** A symbol comes back with its kind and with its relationships in order, references dropped, exactly when
      its kind is not folded and all its special relationships carry the keyword that decoding finds. */
  lemma SymbolReturns(symbols: seq<HirSymbol>, scan: map<(string, string), Id>, i: nat)
    requires Proper(symbols) && Resolved(symbols) && i < |symbols|
    ensures var s, r := symbols[i], SymbolsFromModel(ModelFromSymbols(symbols, scan));
      && r.Ok? && |r.value| == |symbols|
      && (var t := r.value[i];
          && t.name == s.name && t.qualifiedName == s.qualifiedName && t.elementId == s.elementId
          && (t.kind == s.kind <==> !IsFoldedKind(s.kind))
          && (t.relationships == Kept(s.relationships) <==>
                KeywordsAgree(s.relationships, Keyword(NameMap(symbols), s)))
          && t.supertypes == SpecializedTargets(t.relationships))
  {
    DecodeUndoesEncode(symbols, scan);
    KindConversion(symbols[i].kind);
    ReturnedIsKept(NameMap(symbols), symbols[i].relationships, Keyword(NameMap(symbols), symbols[i]));
  }

  /** A package and a slot in it that is both required and performed. */
  function MixedSlot(): seq<HirSymbol> {
    [HirSymbol("P", "P", "p", SymDefinition(SymPackage), [], [], None, None),
     HirSymbol("s", "P::s", "s", SymUsage(SymActionUsage), [],
               [HirRelationship(Requires, "P", Some("P")), HirRelationship(Performs, "P", Some("P"))], None, None)]
  }

  lemma MixedSlotNames()
    ensures var symbols := MixedSlot();
      && ParentName(symbols[0]) == None && ParentName(symbols[1]) == Some("P")
      && NameMap(symbols) == map["P" := "p", "P::s" := "s"]
      && ClassOf("p") == Ordinary && ClassOf("s") == Ordinary
  {
    var symbols := MixedSlot();
    assert LastSeparator("P") == None;
    assert SeparatorAt("P::s", 1) && !SeparatorAt("P::s", 2) && !SeparatorAt("P::s", 3);
    assert LastSeparator("P::s") == Some(1);
    assert "P::s"[..1] == "P";
    assert symbols[..1] == [symbols[0]] && symbols[..1][..0] == [];
  }

  lemma MixedSlotIsProper()
    ensures Proper(MixedSlot()) && Resolved(MixedSlot())
  {
    hide ParentName, NameMap, ClassOf;
    MixedSlotNames();
  }

  lemma ReturnedMixed(rels: seq<HirRelationship>)
    requires |rels| == 2 && rels[0].kind.IsSpecial() && rels[1].kind.IsSpecial()
    ensures Returned(rels, Some(Requires)) ==
      [HirRelationship(Requires, rels[0].resolvedTarget.GetOr(""), Some(rels[0].resolvedTarget.GetOr(""))),
       HirRelationship(Requires, rels[1].resolvedTarget.GetOr(""), Some(rels[1].resolvedTarget.GetOr("")))]
  {
    var later := rels[1..];
    assert later[0] == rels[1] && later[1..] == [];
    assert Returned(later[1..], Some(Requires)) == [];
    assert |Returned(later, Some(Requires))| == 1;
  }

  lemma MixedSlotKeyword()
    ensures Keyword(NameMap(MixedSlot()), MixedSlot()[1]) == Some(Requires)
  {
    hide ParentName, NameMap;
    MixedSlotNames();
    var rels := MixedSlot()[1].relationships;
    assert rels[1..] == [rels[1]] && rels[1..][1..] == [];
    assert LastGroupB([]) == None && LastGroupB(rels[1..]) == None;
  }

  /** The performed relationship comes back as required: decoding finds one keyword for the slot. */
  lemma MixedSlotChanges(symbols: seq<HirSymbol>, scan: map<(string, string), Id>)
    requires symbols == MixedSlot()
    ensures var r := SymbolsFromModel(ModelFromSymbols(symbols, scan));
      && Proper(symbols) && Resolved(symbols) && r.Ok? && |r.value| == 2
      && r.value[1].relationships ==
            [HirRelationship(Requires, "P", Some("P")), HirRelationship(Requires, "P", Some("P"))]
      && r.value[1].relationships != Kept(symbols[1].relationships)
  {
    hide Proper, Resolved, ParentName, NameMap, Keyword, Returned, Kept, SymbolsFromModel, ModelFromSymbols,
         IsFoldedKind, SymbolKindOf;
    MixedSlotIsProper();
    DecodeUndoesEncode(symbols, scan);
    MixedSlotKeyword();
    ReturnedMixed(symbols[1].relationships);
    ResolvedAt(symbols, 1);
    ReturnedIsKept(NameMap(symbols), symbols[1].relationships, Some(Requires));
    assert ReturnedSymbols(NameMap(symbols), symbols)[1] == ReturnedSymbol(NameMap(symbols), symbols[1]);
    assert Returned(symbols[1].relationships, Keyword(NameMap(symbols), symbols[1]))
           == [HirRelationship(Requires, "P", Some("P")), HirRelationship(Requires, "P", Some("P"))];
    assert !KeywordsAgree(symbols[1].relationships, Some(Requires)) by {
      assert symbols[1].relationships[1].kind == Performs;
    }
  }

  lemma ResolvedAt(symbols: seq<HirSymbol>, i: nat)
    requires Resolved(symbols) && i < |symbols|
    ensures AllResolved(NameMap(symbols), symbols[i].relationships)
  {
  }
}
