/** Relationships in the built model, resolved or not: each one that counts becomes one edge, under its number, to the
    element that its target's name leads to, or else to a stand-in for that name. */
module EdgeEncoding {
  import opened Wrappers
  import opened ElementKinds
  import opened ModelGraph
  import opened Wrapping
  import opened Names
  import opened Scopes
  import opened Segments
  import opened Integrate
  import opened GeneratedIds
  import opened EncodeSteps
  import opened EncodeSound
  import opened BuildFrames

  // ---------------------------------------------------------------------------------------------
  // What a relationship is encoded as
  // ---------------------------------------------------------------------------------------------

  /** The name a relationship is encoded by: what it has been resolved to, or else, for the special keywords, what the
      symbol refers to in the end, and for the others what is written. */
  ghost predicate IsTargetName(s: HirSymbol, rel: HirRelationship, name: string) {
    match rel.resolvedTarget
    case Some(t) => name == t
    case None =>
      if rel.kind in {Specializes, TypedBy, Redefines, Subsets, References} then name == rel.target
      else s.terminalRef == Some(name)
  }

  ghost predicate HasSymbol(symbols: seq<HirSymbol>, name: string, id: Id) {
    exists k :: 0 <= k < |symbols| && symbols[k].qualifiedName == name && symbols[k].elementId == id
  }

  /** The namespace in place `k` of a chain has the name in it; the root counts only in front of a separator. */
  ghost predicate InNamespace(symbols: seq<HirSymbol>, chain: seq<string>, k: nat, name: string, id: Id) {
    0 < k < |chain| && HasSeparator(chain[k - 1]) && HasSymbol(symbols, chain[k] + "::" + name, id)
  }

  /** The nearest namespace around the symbol that has the name in it. */
  ghost predicate InNearest(symbols: seq<HirSymbol>, s: HirSymbol, name: string, id: Id) {
    exists chain, k: nat ::
      && IsOutward(chain, s.qualifiedName) && InNamespace(symbols, chain, k, name, id)
      && forall j: nat, other :: j < k ==> !InNamespace(symbols, chain, j, name, other)
  }

  /** Where a target's name leads: to the symbol of that name, or else to the one in the nearest namespace, or else to
      what the scan for names that end in it gives, or else to a stand-in. */
  ghost predicate LeadsToTarget(symbols: seq<HirSymbol>, scan: map<(string, string), Id>, s: HirSymbol, name: string,
          id: Id) {
    if exists i :: HasSymbol(symbols, name, i) then HasSymbol(symbols, name, id)
    else if exists i :: InNearest(symbols, s, name, i) then InNearest(symbols, s, name, id)
    else if (s.qualifiedName, name) in scan then id == scan[(s.qualifiedName, name)]
    else id == "_ext_" + name
  }

  /** The edge under its symbol, of the kind and with the property that the relationship's keyword stands for. */
  ghost predicate EncodesRelationship(e: Element, s: HirSymbol, kind: HirRelKind, target: Id) {
    && e.owner == Some(s.elementId) && e.relationship == Some(RelationshipData([s.elementId], [target]))
    && match kind
       case Specializes => e.kind == Relation(Specialization) && e.properties == map["general" := Reference(target)]
       case TypedBy => e.kind == Relation(FeatureTyping) && e.properties == map["type" := Reference(target)]
       case Redefines =>
         e.kind == Relation(Redefinition) && e.properties == map["redefinedFeature" := Reference(target)]
       case Subsets => e.kind == Relation(Subsetting) && e.properties == map["subsettedFeature" := Reference(target)]
       case References => false
       case _ => e.kind == Relation(ReferenceSubsetting) && e.properties == map[]
  }

  /** An external element that carries the name. */
  ghost predicate StandsInFor(e: Element, name: string) {
    && e.id == "_ext_" + name && e.name == Some(name) && e.kind == General(Other) && e.owner == None
    && e.properties == map["_external" := Flag(true)] && e.relationship == None
  }

  /** How many relationships have numbers: all but plain references. */
  ghost function Numbered(rels: seq<HirRelationship>): nat {
    if rels == [] then 0 else (if rels[0].kind.References? then 0 else 1) + Numbered(rels[1..])
  }

  ghost function AllNumbered(symbols: seq<HirSymbol>): nat {
    if symbols == [] then 0
    else
      var n := |symbols| - 1;
      AllNumbered(symbols[..n]) + if symbols[n].kind.SymImport? then 0 else Numbered(symbols[n].relationships)
  }

  // ---------------------------------------------------------------------------------------------
  // Targets
  // ---------------------------------------------------------------------------------------------

  lemma NameIsTargetName(s: HirSymbol, rel: HirRelationship, name: string)
    ensures TargetName(s, rel) == Some(name) <==> IsTargetName(s, rel, name)
  {
  }

  lemma NamesAreSymbols(symbols: seq<HirSymbol>, name: string, id: Id)
    requires Proper(symbols)
    ensures name in NameMap(symbols) && NameMap(symbols)[name] == id <==> HasSymbol(symbols, name, id)
  {
    if name in NameMap(symbols) {
      var i := NameMapKeys(symbols, name);
    }
    if k :| 0 <= k < |symbols| && symbols[k].qualifiedName == name && symbols[k].elementId == id {
      NameMapAt(symbols, k);
    }
  }

  /** No namespace before place `n` has the name. */
  ghost predicate NoneNearer(symbols: seq<HirSymbol>, chain: seq<string>, n: nat, name: string) {
    forall j: nat, other :: j < n ==> !InNamespace(symbols, chain, j, name, other)
  }

  lemma {:induction false} AncestorIsNearest(symbols: seq<HirSymbol>, ns: string, name: string) returns (k: nat)
    requires Proper(symbols)
    ensures var chain, found := LexicalChain(ns), FindInAncestors(NameMap(symbols), ns, name);
      && (found.Some? ==> InNamespace(symbols, chain, k, name, found.value) && NoneNearer(symbols, chain, k, name))
      && (found.None? ==> NoneNearer(symbols, chain, |chain|, name))
    decreases |ns|
  {
    hide HasSymbol, NameMap, RSplitOnce, Proper;
    RSplitIsLast(ns);
    var split, chain := RSplitOnce(ns), LexicalChain(ns);
    k := 0;
    if split.Some? {
      var outer := LexicalChain(split.value.0);
      assert Up(ns) == Some(split.value.0);
      assert chain == [ns] + outer && outer[0] == split.value.0;
      var candidate := split.value.0 + "::" + name;
      forall id
        ensures candidate in NameMap(symbols) && NameMap(symbols)[candidate] == id
                <==> InNamespace(symbols, chain, 1, name, id)
      {
        NamesAreSymbols(symbols, candidate, id);
      }
      if candidate in NameMap(symbols) {
        k := 1;
      } else {
        k := AncestorIsNearest(symbols, split.value.0, name);
        NearerFurther(symbols, ns, outer, name);
        k := k + 1;
      }
    } else {
      assert LexicalChain("") == [""];
      assert |chain| <= 2 && chain[0] == ns;
    }
  }

  lemma NearerFurther(symbols: seq<HirSymbol>, ns: string, outer: seq<string>, name: string)
    requires outer != [] && forall id :: !InNamespace(symbols, [ns] + outer, 1, name, id)
    ensures forall k: nat, id {:trigger InNamespace(symbols, outer, k, name, id)} ::
              k > 0 ==> InNamespace(symbols, [ns] + outer, k + 1, name, id) == InNamespace(symbols, outer, k, name, id)
    ensures forall n: nat {:trigger NoneNearer(symbols, outer, n, name)} ::
              NoneNearer(symbols, outer, n, name) ==> NoneNearer(symbols, [ns] + outer, n + 1, name)
  {
    hide HasSymbol;
    var chain := [ns] + outer;
    forall k: nat, id | k > 0
      ensures InNamespace(symbols, chain, k + 1, name, id) == InNamespace(symbols, outer, k, name, id)
    {
      if k < |outer| {
        assert chain[k] == outer[k - 1] && chain[k + 1] == outer[k];
      }
    }
    forall n: nat | NoneNearer(symbols, outer, n, name) ensures NoneNearer(symbols, chain, n + 1, name) {
      forall j: nat, id | j < n + 1 ensures !InNamespace(symbols, chain, j, name, id) {
        if j > 1 {
          assert !InNamespace(symbols, outer, j - 1, name, id);
        }
      }
    }
  }

  lemma NearestIsFound(symbols: seq<HirSymbol>, s: HirSymbol, name: string, id: Id)
    requires Proper(symbols)
    ensures FindInAncestors(NameMap(symbols), s.qualifiedName, name) == Some(id) <==> InNearest(symbols, s, name, id)
  {
    hide InNamespace, NameMap, Proper, FindInAncestors, IsOutward;
    var ns := s.qualifiedName;
    var k := AncestorIsNearest(symbols, ns, name);
    var chain, found := LexicalChain(ns), FindInAncestors(NameMap(symbols), ns, name);
    ChainIsOutward(ns);
    if InNearest(symbols, s, name, id) {
      var c, j: nat :| IsOutward(c, ns) && InNamespace(symbols, c, j, name, id)
        && forall i: nat, other :: i < j ==> !InNamespace(symbols, c, i, name, other);
      OutwardIsUnique(c, ns);
      InNamespaceInside(symbols, chain, j, name, id);
      assert found.Some? && !(j < k) && !(k < j);
      OneInNamespace(symbols, chain, k, name, id, found.value);
    }
  }

  lemma InNamespaceInside(symbols: seq<HirSymbol>, chain: seq<string>, k: nat, name: string, id: Id)
    requires InNamespace(symbols, chain, k, name, id)
    ensures k < |chain|
  {
  }

  lemma OneInNamespace(symbols: seq<HirSymbol>, chain: seq<string>, k: nat, name: string, a: Id, b: Id)
    requires Proper(symbols) && InNamespace(symbols, chain, k, name, a) && InNamespace(symbols, chain, k, name, b)
    ensures a == b
  {
    NamesAreSymbols(symbols, chain[k] + "::" + name, a);
    NamesAreSymbols(symbols, chain[k] + "::" + name, b);
  }

  /** The target that encoding finds is the one that the name leads to. */
  lemma TargetIsFound(symbols: seq<HirSymbol>, scan: map<(string, string), Id>, s: HirSymbol, name: string, id: Id)
    requires Proper(symbols)
    ensures TargetId(Context(NameMap(symbols), scan), s, name) == id <==> LeadsToTarget(symbols, scan, s, name, id)
  {
    hide InNearest, HasSymbol, NameMap, Proper, FindInAncestors;
    var names := NameMap(symbols);
    forall i ensures name in names && names[name] == i <==> HasSymbol(symbols, name, i) {
      NamesAreSymbols(symbols, name, i);
    }
    assert name in names ==> HasSymbol(symbols, name, names[name]);
    var nearest := FindInAncestors(names, s.qualifiedName, name);
    forall i ensures nearest == Some(i) <==> InNearest(symbols, s, name, i) {
      NearestIsFound(symbols, s, name, i);
    }
    assert nearest.Some? ==> InNearest(symbols, s, name, nearest.value);
  }

  // ---------------------------------------------------------------------------------------------
  // Edges
  // ---------------------------------------------------------------------------------------------

  /** Under a number stands an edge that encodes the relationship. */
  ghost predicate EdgeAt(g: Graph, n: nat, s: HirSymbol, kind: HirRelKind, target: Id) {
    RelId(n) in g.elements && EncodesRelationship(g.elements[RelId(n)], s, kind, target)
  }

  lemma EdgeStays(g: Graph, h: Graph, n: nat, s: HirSymbol, kind: HirRelKind, target: Id)
    requires EdgeAt(g, n, s, kind, target) && Stays(g, h, RelId(n))
    ensures EdgeAt(h, n, s, kind, target)
  {
    hide RelId;
  }

  lemma PlainEdgeEncodes(n: nat, s: HirSymbol, kind: HirRelKind, edge: RelationKind, target: Id)
    requires EdgeKindOf(kind) == Some(edge)
    ensures EncodesRelationship(PlainEdge(RelId(n), edge, s.elementId, target), s, kind, target)
    ensures kind.IsGroupB() ==> PlainEdge(RelId(n), edge, s.elementId, target) ==
                                Edge(RelId(n), ReferenceSubsetting, s.elementId, target)
  {
    hide RelId;
  }

  lemma EmitPlainPuts(g: Graph, id: Id, kind: RelationKind, target: Id, relId: Id)
    requires id != relId
    ensures var h := EmitPlain(g, id, kind, target, relId);
      relId in h.elements && h.elements[relId] == PlainEdge(relId, kind, id, target)
  {
  }

  lemma EmitGroupBPuts(g: Graph, kind: HirRelKind, slot: Id, target: Id, parent: Id, relId: Id)
    requires slot != relId
    ensures var h := EmitGroupB(g, kind, slot, target, parent, relId);
      relId in h.elements && h.elements[relId] == Edge(relId, ReferenceSubsetting, slot, target)
  {
    hide WrapSlot;
  }

  lemma EmittedIsEdge(g: Graph, s: HirSymbol, owner: Option<Id>, kind: HirRelKind, edge: RelationKind, target: Id,
          n: nat)
    requires EdgeKindOf(kind) == Some(edge) && ClassOf(s.elementId) == Ordinary
    ensures EdgeAt(EmitTo(g, s, owner, kind, edge, target, RelId(n)), n, s, kind, target)
  {
    hide RelId, ClassOf, PlainEdge, Edge, EncodesRelationship, EdgeKindOf, EmitPlain, EmitGroupB;
    ClassOfRel(n);
    PlainEdgeEncodes(n, s, kind, edge, target);
    if kind.IsGroupB() && owner.Some? {
      EmitGroupBPuts(g, kind, s.elementId, target, owner.value, RelId(n));
    } else {
      EmitPlainPuts(g, s.elementId, edge, target, RelId(n));
    }
  }

  /** A relationship that has a target name becomes an edge under the next number. */
  lemma EmitsEdge(symbols: seq<HirSymbol>, scan: map<(string, string), Id>, b: Build, s: HirSymbol,
          rel: HirRelationship, name: string, id: Id)
    requires Proper(symbols) && ClassOf(s.elementId) == Ordinary && !rel.kind.References?
    requires IsTargetName(s, rel, name) && LeadsToTarget(symbols, scan, s, name, id)
    ensures EdgeAt(EmitRelationship(b, Context(NameMap(symbols), scan), s, rel).g, b.counter + 1, s, rel.kind, id)
  {
    hide IsTargetName, LeadsToTarget, TargetName, TargetId, EmitTo, EdgeAt, NameMap, Proper, RelId;
    var ctx := Context(NameMap(symbols), scan);
    NameIsTargetName(s, rel, name);
    TargetIsFound(symbols, scan, s, name, id);
    EmitRelationshipOutcome(b, ctx, s, rel);
    EmittedIsEdge(WithTarget(b.g, ctx, s, name), s, OwnerId(ctx.names, s), rel.kind, EdgeKindOf(rel.kind).value, id,
        b.counter + 1);
  }

  lemma CountsOne(b: Build, ctx: Context, s: HirSymbol, rel: HirRelationship)
    ensures EmitRelationship(b, ctx, s, rel).counter == b.counter + if rel.kind.References? then 0 else 1
  {
    hide EmitTo, WithTarget, TargetName, TargetId, RelId;
    EmitRelationshipOutcome(b, ctx, s, rel);
  }

  lemma {:induction false} CountsAll(b: Build, ctx: Context, s: HirSymbol, rels: seq<HirRelationship>)
    ensures EmitRelationships(b, ctx, s, rels).counter == b.counter + Numbered(rels)
    decreases |rels|
  {
    hide EmitRelationship;
    if rels != [] {
      CountsOne(b, ctx, s, rels[0]);
      CountsAll(EmitRelationship(b, ctx, s, rels[0]), ctx, s, rels[1..]);
    }
  }

  lemma NumberOutlives(n: nat, counter: nat)
    requires n <= counter
    ensures Outlives(RelId(n), counter)
  {
    hide ClassOf, RelId;
  }

  /** Relationship `j` of a list is encoded under the number that it has there. */
  lemma {:induction false} ListEmitsEdge(symbols: seq<HirSymbol>, scan: map<(string, string), Id>, b: Build,
          s: HirSymbol, rels: seq<HirRelationship>, j: nat, name: string, id: Id)
    requires Proper(symbols) && ClassOf(s.elementId) == Ordinary && j < |rels| && !rels[j].kind.References?
    requires IsTargetName(s, rels[j], name) && LeadsToTarget(symbols, scan, s, name, id)
    ensures EdgeAt(EmitRelationships(b, Context(NameMap(symbols), scan), s, rels).g,
              b.counter + Numbered(rels[..j]) + 1, s, rels[j].kind, id)
    decreases |rels|
  {
    hide IsTargetName, LeadsToTarget, EmitRelationship, EdgeAt, NameMap, Proper, RelId, ClassOf, Stays, Outlives;
    var ctx := Context(NameMap(symbols), scan);
    var c := EmitRelationship(b, ctx, s, rels[0]);
    CountsOne(b, ctx, s, rels[0]);
    if j == 0 {
      var n := b.counter + 1;
      EmitsEdge(symbols, scan, b, s, rels[0], name, id);
      NumberOutlives(n, c.counter);
      ClassOfRel(n);
      EdgeIsKey(c.g, n, s, rels[0].kind, id);
      EmitRelationshipsStay(c, ctx, s, rels[1..], RelId(n));
      EdgeStays(c.g, EmitRelationships(b, ctx, s, rels).g, n, s, rels[0].kind, id);
    } else {
      assert rels[1..][j - 1] == rels[j] && rels[..j][0] == rels[0] && rels[..j][1..] == rels[1..][..j - 1];
      ListEmitsEdge(symbols, scan, c, s, rels[1..], j - 1, name, id);
    }
  }

  lemma EdgeIsKey(g: Graph, n: nat, s: HirSymbol, kind: HirRelKind, id: Id)
    requires EdgeAt(g, n, s, kind, id)
    ensures RelId(n) in g.elements && !g.elements[RelId(n)].kind.IsContent()
  {
    hide RelId;
  }

  lemma {:induction false} CountsSymbols(ctx: Context, symbols: seq<HirSymbol>)
    ensures EncodeSymbols(ctx, symbols).counter == AllNumbered(symbols)
  {
    hide EmitRelationships, EmitValue, RebuildOwned, InsertListed, OwnerId, ElementKindOf, SymbolElement;
    if symbols != [] {
      var n := |symbols| - 1;
      CountsSymbols(ctx, symbols[..n]);
      var s, b := symbols[n], EncodeSymbols(ctx, symbols[..n]);
      CountsAll(b.(g := RebuildOwned(b.g.Add(SymbolElement(s, OwnerId(ctx.names, s))))), ctx, s, s.relationships);
    }
  }

  /** At a symbol's turn its relationship `j` is encoded. */
  lemma SymbolEmitsEdge(symbols: seq<HirSymbol>, scan: map<(string, string), Id>, b: Build, s: HirSymbol, j: nat,
          name: string, id: Id)
    requires Proper(symbols) && ClassOf(s.elementId) == Ordinary && !s.IsImport() && j < |s.relationships|
    requires !s.relationships[j].kind.References?
    requires IsTargetName(s, s.relationships[j], name) && LeadsToTarget(symbols, scan, s, name, id)
    ensures EdgeAt(EncodeSymbol(b, Context(NameMap(symbols), scan), s).g,
              b.counter + Numbered(s.relationships[..j]) + 1, s, s.relationships[j].kind, id)
  {
    hide IsTargetName, LeadsToTarget, EmitRelationships, EdgeAt, NameMap, Proper, RelId, ClassOf, Stays, Outlives,
      EmitValue, RebuildOwned, OwnerId, ElementKindOf, SymbolElement;
    var ctx, x := Context(NameMap(symbols), scan), s.elementId;
    var placed := b.(g := RebuildOwned(b.g.Add(SymbolElement(s, OwnerId(ctx.names, s)))));
    var linked := EmitRelationships(placed, ctx, s, s.relationships);
    var n, kind := b.counter + Numbered(s.relationships[..j]) + 1, s.relationships[j].kind;
    ListEmitsEdge(symbols, scan, placed, s, s.relationships, j, name, id);
    if s.value.Some? {
      EdgeIsKey(linked.g, n, s, kind, id);
      NumberOutlives(n, n);
      var once := EmitValue(linked.g, x, s.value.value);
      EmitValueStays(linked.g, x, s.value.value, RelId(n), n);
      EdgeStays(linked.g, once, n, s, kind, id);
      EdgeIsKey(once, n, s, kind, id);
      EmitValueStays(once, x, s.value.value, RelId(n), n);
      EdgeStays(once, EmitValue(once, x, s.value.value), n, s, kind, id);
    }
  }

  /** The number of relationship `j` of symbol `i`. */
  ghost function NumberOf(symbols: seq<HirSymbol>, i: nat, j: nat): nat
    requires i < |symbols| && j < |symbols[i].relationships|
  {
    AllNumbered(symbols[..i]) + Numbered(symbols[i].relationships[..j]) + 1
  }

  lemma {:induction false} NumberedWithin(rels: seq<HirRelationship>, j: nat)
    requires j < |rels| && !rels[j].kind.References?
    ensures Numbered(rels[..j]) < Numbered(rels)
    decreases |rels|
  {
    if j > 0 {
      assert rels[..j][0] == rels[0] && rels[..j][1..] == rels[1..][..j - 1] && rels[1..][j - 1] == rels[j];
      NumberedWithin(rels[1..], j - 1);
    }
  }

  /** Once its symbol's turn has come, a relationship stays encoded. */
  lemma {:induction false} PrefixEncodesEdge(symbols: seq<HirSymbol>, scan: map<(string, string), Id>, n: nat, i: nat,
          j: nat, name: string, id: Id)
    requires Proper(symbols) && i < n <= |symbols| && !symbols[i].IsImport() && j < |symbols[i].relationships|
    requires !symbols[i].relationships[j].kind.References?
    requires IsTargetName(symbols[i], symbols[i].relationships[j], name)
    requires LeadsToTarget(symbols, scan, symbols[i], name, id)
    ensures var b := EncodeSymbols(Context(NameMap(symbols), scan), symbols[..n]);
      && EdgeAt(b.g, NumberOf(symbols, i, j), symbols[i], symbols[i].relationships[j].kind, id)
      && NumberOf(symbols, i, j) <= b.counter
  {
    hide IsTargetName, LeadsToTarget, EncodeSymbol, EdgeAt, NameMap, RelId, ClassOf, Numbered, Proper;
    var ctx := Context(NameMap(symbols), scan);
    assert symbols[..n][..n - 1] == symbols[..n - 1] && symbols[..n][n - 1] == symbols[n - 1];
    var b := EncodeSymbols(ctx, symbols[..n - 1]);
    IdIsOrdinary(symbols, n - 1);
    if i == n - 1 {
      CountsSymbols(ctx, symbols[..n - 1]);
      CountsSymbols(ctx, symbols[..n]);
      SymbolEmitsEdge(symbols, scan, b, symbols[i], j, name, id);
      NumberedWithin(symbols[i].relationships, j);
    } else {
      PrefixEncodesEdge(symbols, scan, n - 1, i, j, name, id);
      LaterKeepsEdge(b, ctx, symbols[n - 1], NumberOf(symbols, i, j), symbols[i], symbols[i].relationships[j].kind, id);
    }
  }

  lemma IdIsOrdinary(symbols: seq<HirSymbol>, i: nat)
    requires Proper(symbols) && i < |symbols|
    ensures ClassOf(symbols[i].elementId) == Ordinary
  {
  }

  lemma LaterKeepsEdge(b: Build, ctx: Context, later: HirSymbol, n: nat, s: HirSymbol, kind: HirRelKind, id: Id)
    requires EdgeAt(b.g, n, s, kind, id) && n <= b.counter && ClassOf(later.elementId) == Ordinary
    ensures var c := EncodeSymbol(b, ctx, later); EdgeAt(c.g, n, s, kind, id) && n <= c.counter
  {
    hide EncodeSymbol, EdgeAt, RelId, ClassOf, Stays, Outlives;
    EdgeIsKey(b.g, n, s, kind, id);
    NumberOutlives(n, b.counter);
    ClassOfRel(n);
    EncodeSymbolStays(b, ctx, later, RelId(n));
    EdgeStays(b.g, EncodeSymbol(b, ctx, later).g, n, s, kind, id);
  }

  /** In the finished model every relationship but a plain reference, resolved or not, that has a target's name is one
      edge under its own number, from its symbol to where that name leads. */
  lemma RelationshipIsEncoded(symbols: seq<HirSymbol>, scan: map<(string, string), Id>, i: nat, j: nat, name: string,
          id: Id)
    requires Proper(symbols) && i < |symbols| && !symbols[i].IsImport() && j < |symbols[i].relationships|
    requires !symbols[i].relationships[j].kind.References?
    requires IsTargetName(symbols[i], symbols[i].relationships[j], name)
    requires LeadsToTarget(symbols, scan, symbols[i], name, id)
    ensures EdgeAt(ModelFromSymbols(symbols, scan), NumberOf(symbols, i, j), symbols[i],
              symbols[i].relationships[j].kind, id)
  {
    hide IsTargetName, LeadsToTarget, EncodeSymbols, EdgeAt, NameMap, RelId, Stays, Proper, WrapList, ItemsToWrap,
      NumberOf;
    var n, kind := NumberOf(symbols, i, j), symbols[i].relationships[j].kind;
    assert symbols[..|symbols|] == symbols;
    PrefixEncodesEdge(symbols, scan, |symbols|, i, j, name, id);
    EdgeIsKey(Unwrapped(symbols, scan), n, symbols[i], kind, id);
    FinishedStays(symbols, scan, RelId(n));
    EdgeStays(Unwrapped(symbols, scan), ModelFromSymbols(symbols, scan), n, symbols[i], kind, id);
  }

  // ---------------------------------------------------------------------------------------------
  // Stand-ins
  // ---------------------------------------------------------------------------------------------

  /** What stands under a stand-in's id is a stand-in for that name. */
  ghost predicate StandsRightly(g: Graph, name: string) {
    ExternalId(name) in g.elements ==> StandsInFor(g.elements[ExternalId(name)], name)
  }

  ghost predicate StandsIn(g: Graph, name: string) {
    ExternalId(name) in g.elements && StandsInFor(g.elements[ExternalId(name)], name)
  }

  lemma StandInStays(g: Graph, h: Graph, name: string)
    requires ExternalId(name) in g.elements ==> Stays(g, h, ExternalId(name))
    requires ExternalId(name) !in g.elements ==> ExternalId(name) !in h.elements || StandsIn(h, name)
    ensures StandsRightly(g, name) ==> StandsRightly(h, name)
    ensures StandsIn(g, name) ==> StandsIn(h, name)
  {
    hide ExternalId;
  }

  lemma ExternalIsNoOther(name: string, n: nat, id: Id)
    requires ClassOf(id) == Ordinary
    ensures var x := ExternalId(name);
      x != id && x != RelId(n) && x != WrapId(id) && x != ValueId(id) && x != LiteralId(id)
  {
    hide ClassOf, ExternalId, RelId, WrapId, ValueId, LiteralId;
    ClassOfExternal(name);
    ClassOfRel(n);
    ClassOfWrap(id);
    ClassOfValue(id);
    ClassOfLiteral(id);
  }

  lemma ExternalIsInjective(a: string, b: string)
    requires ExternalId(a) == ExternalId(b)
    ensures a == b
  {
    assert ExternalId(a)[5..] == a && ExternalId(b)[5..] == b;
  }

  lemma EmitToAddsKeys(g: Graph, s: HirSymbol, owner: Option<Id>, kind: HirRelKind, edge: RelationKind, target: Id,
          relId: Id, x: Id)
    requires x in EmitTo(g, s, owner, kind, edge, target, relId).elements
    ensures x in g.elements || x == relId || x == WrapId(s.elementId)
  {
    hide PlainEdge, Edge, SpecialWrapper, WrapId;
    SpecialWrapperId(kind, s.elementId, owner.GetOr(""));
    EdgeIds(relId, edge, s.elementId, target);
  }

  lemma SpecialWrapperId(kind: HirRelKind, slot: Id, parent: Id)
    ensures SpecialWrapper(kind, slot, parent).id == WrapId(slot)
  {
  }

  lemma EdgeIds(id: Id, kind: RelationKind, source: Id, target: Id)
    ensures PlainEdge(id, kind, source, target).id == id && Edge(id, ReferenceSubsetting, source, target).id == id
  {
  }

  lemma StubStands(g: Graph, name: string, other: string)
    ensures ExternalId(name) !in g.elements && ExternalId(name) in WithStub(g, other).elements ==>
              name == other && StandsIn(WithStub(g, other), name)
    ensures ExternalId(other) in WithStub(g, other).elements
  {
    if ExternalId(name) == ExternalId(other) {
      ExternalIsInjective(name, other);
    }
  }

  /** The relationship counts, and its target's name is nowhere else. */
  ghost predicate NeedsStandIn(ctx: Context, s: HirSymbol, rel: HirRelationship, name: string) {
    TargetName(s, rel) == Some(name) && FindTarget(ctx, s, name) == None && !rel.kind.References?
  }

  lemma EmitRelationshipStands(b: Build, ctx: Context, s: HirSymbol, rel: HirRelationship, name: string)
    requires ClassOf(s.elementId) == Ordinary
    ensures var c := EmitRelationship(b, ctx, s, rel);
      && (StandsRightly(b.g, name) ==> StandsRightly(c.g, name)) && (StandsIn(b.g, name) ==> StandsIn(c.g, name))
      && (StandsRightly(b.g, name) && NeedsStandIn(ctx, s, rel, name) ==> StandsIn(c.g, name))
  {
    hide EmitTo, WithStub, FindTarget, TargetName, OwnerId, ClassOf, Stays, StandsRightly, StandsIn, EmitRelationship,
      ExternalId, RelId, WrapId, Outlives;
    var c, x, n := EmitRelationship(b, ctx, s, rel), ExternalId(name), b.counter + 1;
    EmitRelationshipOutcome(b, ctx, s, rel);
    ExternalIsNoOther(name, n, s.elementId);
    ExternalOutlives(name, b.counter);
    var target := TargetName(s, rel);
    if EdgeKindOf(rel.kind).Some? && target.Some? {
      var h := WithTarget(b.g, ctx, s, target.value);
      StubStands(b.g, name, target.value);
      if x in b.g.elements {
        StubStays(b.g, ctx, s, target.value, x);
      }
      StandInStays(b.g, h, name);
      EmitStands(h, s, OwnerId(ctx.names, s), rel.kind, EdgeKindOf(rel.kind).value, TargetId(ctx, s, target.value), n,
          name);
      if FindTarget(ctx, s, target.value).None? && target.value == name {
        PresentStands(h, name);
      }
    }
  }

  lemma PresentStands(g: Graph, name: string)
    requires ExternalId(name) in g.elements
    ensures StandsRightly(g, name) ==> StandsIn(g, name)
  {
  }

  lemma ExternalOutlives(name: string, counter: nat)
    ensures Outlives(ExternalId(name), counter)
  {
    hide ClassOf;
    ClassOfExternal(name);
  }

  lemma EmitStands(g: Graph, s: HirSymbol, owner: Option<Id>, kind: HirRelKind, edge: RelationKind, target: Id, n: nat,
          name: string)
    requires ClassOf(s.elementId) == Ordinary
    ensures var h := EmitTo(g, s, owner, kind, edge, target, RelId(n));
      && (StandsRightly(g, name) ==> StandsRightly(h, name)) && (StandsIn(g, name) ==> StandsIn(h, name))
  {
    hide EmitPlain, EmitGroupB, ClassOf, Stays, StandsRightly, StandsIn, ExternalId, RelId, WrapId;
    var h, x := EmitTo(g, s, owner, kind, edge, target, RelId(n)), ExternalId(name);
    ExternalIsNoOther(name, n, s.elementId);
    if x in g.elements {
      if kind.IsGroupB() && owner.Some? {
        EmitGroupBStays(g, kind, s.elementId, target, owner.value, RelId(n), x);
      } else {
        EmitPlainStays(g, s.elementId, edge, target, RelId(n), x);
      }
    } else if x in h.elements {
      EmitToAddsKeys(g, s, owner, kind, edge, target, RelId(n), x);
    }
    StandInStays(g, h, name);
  }

  /** A stand-in is there once a relationship needs it, and stays. */
  lemma {:induction false} ListStands(b: Build, ctx: Context, s: HirSymbol, rels: seq<HirRelationship>, name: string)
    requires ClassOf(s.elementId) == Ordinary
    ensures var c := EmitRelationships(b, ctx, s, rels);
      && (StandsRightly(b.g, name) ==> StandsRightly(c.g, name)) && (StandsIn(b.g, name) ==> StandsIn(c.g, name))
      && (StandsRightly(b.g, name) && Needs(ctx, s, rels, name) ==> StandsIn(c.g, name))
    decreases |rels|
  {
    hide EmitRelationship, FindTarget, TargetName, ClassOf, StandsRightly, StandsIn;
    if rels != [] {
      var c := EmitRelationship(b, ctx, s, rels[0]);
      EmitRelationshipStands(b, ctx, s, rels[0], name);
      ListStands(c, ctx, s, rels[1..], name);
      if Needs(ctx, s, rels, name) {
        var j :| 0 <= j < |rels| && NeedsStandIn(ctx, s, rels[j], name);
        assert j > 0 ==> rels[1..][j - 1] == rels[j];
      }
    }
  }

  ghost predicate Needs(ctx: Context, s: HirSymbol, rels: seq<HirRelationship>, name: string) {
    exists j :: 0 <= j < |rels| && NeedsStandIn(ctx, s, rels[j], name)
  }

  lemma ValueStands(g: Graph, id: Id, value: Literal, name: string)
    requires ClassOf(id) == Ordinary
    ensures var h := EmitValue(g, id, value);
      && (StandsRightly(g, name) ==> StandsRightly(h, name)) && (StandsIn(g, name) ==> StandsIn(h, name))
  {
    hide ClassOf, Stays, StandsRightly, StandsIn, ExternalId, ValueId, LiteralId, Outlives;
    ExternalIsNoOther(name, 0, id);
    ExternalOutlives(name, 0);
    if ExternalId(name) in g.elements {
      EmitValueStays(g, id, value, ExternalId(name), 0);
    }
    StandInStays(g, EmitValue(g, id, value), name);
  }

  lemma PlaceStands(g: Graph, e: Element, name: string)
    requires ClassOf(e.id) == Ordinary
    ensures var h, k := RebuildOwned(g.Add(e)), InsertListed(g, e);
      && (StandsRightly(g, name) ==> StandsRightly(h, name)) && (StandsIn(g, name) ==> StandsIn(h, name))
      && (StandsRightly(g, name) ==> StandsRightly(k, name)) && (StandsIn(g, name) ==> StandsIn(k, name))
  {
    hide ClassOf, Stays, StandsRightly, StandsIn, ExternalId;
    ExternalIsNoOther(name, 0, e.id);
    if ExternalId(name) in g.elements {
      PlaceStays(g, e, ExternalId(name));
      InsertListedStays(g, e, ExternalId(name));
    }
    StandInStays(g, RebuildOwned(g.Add(e)), name);
    StandInStays(g, InsertListed(g, e), name);
  }

  lemma SymbolStands(b: Build, ctx: Context, s: HirSymbol, name: string)
    requires ClassOf(s.elementId) == Ordinary
    ensures var c := EncodeSymbol(b, ctx, s);
      && (StandsRightly(b.g, name) ==> StandsRightly(c.g, name)) && (StandsIn(b.g, name) ==> StandsIn(c.g, name))
      && (StandsRightly(b.g, name) && !s.IsImport() && Needs(ctx, s, s.relationships, name) ==> StandsIn(c.g, name))
  {
    hide ClassOf, StandsRightly, StandsIn, EmitRelationships, EmitValue, RebuildOwned, InsertListed, OwnerId,
      ElementKindOf, Needs, EndsWith, TrimEnd;
    var owner := OwnerId(ctx.names, s);
    if s.IsImport() {
      PlaceStands(b.g, ImportElement(s, owner), name);
    } else {
      var e := SymbolElement(s, owner);
      PlaceStands(b.g, e, name);
      var placed := b.(g := RebuildOwned(b.g.Add(e)));
      var linked := EmitRelationships(placed, ctx, s, s.relationships);
      ListStands(placed, ctx, s, s.relationships, name);
      if s.value.Some? {
        ValueStands(linked.g, s.elementId, s.value.value, name);
        ValueStands(EmitValue(linked.g, s.elementId, s.value.value), s.elementId, s.value.value, name);
      }
    }
  }

  lemma {:induction false} PrefixStands(symbols: seq<HirSymbol>, ctx: Context, n: nat, i: nat, name: string)
    requires Proper(symbols) && n <= |symbols| && i < |symbols|
    ensures var g := EncodeSymbols(ctx, symbols[..n]).g;
      && StandsRightly(g, name)
      && (i < n && !symbols[i].IsImport() && Needs(ctx, symbols[i], symbols[i].relationships, name) ==>
            StandsIn(g, name))
  {
    hide Needs, EncodeSymbol, StandsIn, Proper, ClassOf, ExternalId;
    if n > 0 {
      assert symbols[..n][..n - 1] == symbols[..n - 1] && symbols[..n][n - 1] == symbols[n - 1];
      PrefixStands(symbols, ctx, n - 1, i, name);
      IdIsOrdinary(symbols, n - 1);
      SymbolStands(EncodeSymbols(ctx, symbols[..n - 1]), ctx, symbols[n - 1], name);
    }
  }

  /** Where the name of a relationship's target leads nowhere else, the finished model has an external element that
      carries the name and stands in for it. */
  lemma TargetHasStandIn(symbols: seq<HirSymbol>, scan: map<(string, string), Id>, i: nat, j: nat, name: string)
    requires Proper(symbols) && i < |symbols| && !symbols[i].IsImport() && j < |symbols[i].relationships|
    requires !symbols[i].relationships[j].kind.References?
    requires IsTargetName(symbols[i], symbols[i].relationships[j], name)
    requires forall id :: !HasSymbol(symbols, name, id) && !InNearest(symbols, symbols[i], name, id)
    requires (symbols[i].qualifiedName, name) !in scan
    ensures StandsIn(ModelFromSymbols(symbols, scan), name)
  {
    hide HasSymbol, InNearest, IsTargetName, TargetName, Proper, NameMap, FindInAncestors, EncodeSymbols, StandsIn,
         Stays,
      WrapList, ItemsToWrap, ExternalId;
    var s, ctx, g := symbols[i], Context(NameMap(symbols), scan), Unwrapped(symbols, scan);
    NameIsTargetName(s, s.relationships[j], name);
    if name in NameMap(symbols) {
      NamesAreSymbols(symbols, name, NameMap(symbols)[name]);
    }
    var nearest := FindInAncestors(NameMap(symbols), s.qualifiedName, name);
    if nearest.Some? {
      NearestIsFound(symbols, s, name, nearest.value);
    }
    assert NeedsStandIn(ctx, s, s.relationships[j], name);
    assert symbols[..|symbols|] == symbols;
    PrefixStands(symbols, ctx, |symbols|, i, name);
    StandInIsUnowned(g, name);
    FinishedStays(symbols, scan, ExternalId(name));
    StandInStays(g, ModelFromSymbols(symbols, scan), name);
  }

  lemma StandInIsUnowned(g: Graph, name: string)
    requires StandsIn(g, name)
    ensures ExternalId(name) in g.elements && !NeedsWrap(g, ExternalId(name))
  {
    hide ExternalId;
  }
}
