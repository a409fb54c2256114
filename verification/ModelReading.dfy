/** What a model from anywhere is read as: which edges say something and what, which models are refused, and which
    symbols come out in which order, told from the elements alone. */
module ModelReading {
  import opened Wrappers
  import opened ElementKinds
  import opened ModelGraph
  import opened Names
  import opened Segments
  import opened Integrate

  // ---------------------------------------------------------------------------------------------
  // One edge
  // ---------------------------------------------------------------------------------------------

  /** The kind that a constraint membership states. */
  ghost predicate States(e: Element, kind: HirRelKind) {
    "kind" in e.properties &&
      match kind
      case Assumes => e.properties["kind"] == Text("assumption")
      case Requires => e.properties["kind"] == Text("requirement")
      case _ => false
  }

  /** A constraint membership that states neither kind. */
  ghost predicate IsMalformed(e: Element) {
    && e.kind == Relation(RequirementConstraintMembership)
    && ("kind" in e.properties ==> e.properties["kind"] !in {Text("assumption"), Text("requirement")})
  }

  ghost predicate IsOwner(g: Graph, e: Element, w: Element) {
    match e.owner
    case None => false
    case Some(id) => id in g.elements && g.elements[id] == w
  }

  /** The special keyword that a slot's kind stands for. */
  ghost predicate IsShort(kind: ElementKind, keyword: HirRelKind) {
    match keyword
    case Performs => kind == Usage(PerformActionUsage)
    case Includes => kind == Usage(IncludeUseCaseUsage)
    case Exhibits => kind == Usage(ExhibitStateUsage)
    case Asserts => kind == Usage(AssertConstraintUsage)
    case Satisfies => kind == Usage(Satisfaction)
    case _ => false
  }

  /** A reference subsetting is read by the special membership around its source, or if there is none, by its source's
      kind. */
  ghost predicate SaysShort(g: Graph, source: Element, keyword: HirRelKind) {
    || (exists w :: IsOwner(g, source, w) && w.kind == Relation(RequirementConstraintMembership) && States(w, keyword))
    || (exists w :: IsOwner(g, source, w) && w.kind == Relation(Verification) && keyword == Verifies)
    || (IsShort(source.kind, keyword)
          && forall w :: IsOwner(g, source, w) ==>
               w.kind != Relation(RequirementConstraintMembership) && w.kind != Relation(Verification))
  }

  /** What an edge is read as. */
  ghost predicate Says(g: Graph, edge: Element, source: Element, keyword: HirRelKind) {
    match edge.kind
    case Relation(Specialization) => keyword == Specializes
    case Relation(FeatureTyping) => keyword == TypedBy
    case Relation(Redefinition) => keyword == Redefines
    case Relation(Subsetting) => keyword == Subsets
    case Relation(RequirementConstraintMembership) => States(edge, keyword)
    case Relation(Verification) => keyword == Verifies
    case Relation(ReferenceSubsetting) => SaysShort(g, source, keyword)
    case _ => false
  }

  /** An edge is refused for a malformed constraint membership: itself, or around its source. */
  ghost predicate IsRefused(g: Graph, edge: Element, source: Element) {
    || IsMalformed(edge)
    || (edge.kind == Relation(ReferenceSubsetting) && exists w :: IsOwner(g, source, w) && IsMalformed(w))
  }

  lemma StatedIsRead(e: Element, keyword: HirRelKind)
    ensures RequirementKind(e) == Result.Ok(Some(keyword)) <==> States(e, keyword)
    ensures e.kind == Relation(RequirementConstraintMembership) ==>
              (RequirementKind(e).InvalidAttribute? <==> IsMalformed(e))
    ensures RequirementKind(e).Ok? ==> RequirementKind(e).value.Some?
  {
  }

  lemma ShortIsRead(g: Graph, source: Element, keyword: HirRelKind)
    ensures SpecialKind(g, source) == Result.Ok(Some(keyword)) <==> SaysShort(g, source, keyword)
    ensures SpecialKind(g, source).InvalidAttribute? <==> exists w :: IsOwner(g, source, w) && IsMalformed(w)
  {
    hide RequirementKind, States;
    if source.owner.Some? && source.owner.value in g.elements {
      var w := g.elements[source.owner.value];
      assert IsOwner(g, source, w);
      StatedIsRead(w, keyword);
      MalformedIsConstraint(w);
    }
  }

  lemma MalformedIsConstraint(e: Element)
    ensures IsMalformed(e) ==> e.kind == Relation(RequirementConstraintMembership)
  {
  }

  /** What decoding makes of an edge's kind. */
  lemma EdgeIsRead(g: Graph, edge: Element, source: Element, keyword: HirRelKind)
    ensures DecodeKind(g, edge, source) == Result.Ok(Some(keyword)) <==> Says(g, edge, source, keyword)
    ensures DecodeKind(g, edge, source).InvalidAttribute? <==> IsRefused(g, edge, source)
  {
    hide RequirementKind, SpecialKind, States, SaysShort, IsMalformed;
    StatedIsRead(edge, keyword);
    ShortIsRead(g, source, keyword);
    MalformedIsConstraint(edge);
  }

  /** The name that a target is read by: its qualified name, its name, or its id; nothing for an edge to nothing. */
  ghost predicate IsReadBy(g: Graph, edge: Element, name: string) {
    match edge.relationship
    case None => name == ""
    case Some(ends) =>
      if |ends.target| == 0 then name == ""
      else if ends.target[0] !in g.elements then name == ends.target[0]
      else
        match g.elements[ends.target[0]].qualifiedName
        case Some(q) => name == q
        case None =>
          match g.elements[ends.target[0]].name
          case Some(n) => name == n
          case None => name == ends.target[0]
  }

  lemma TargetIsReadBy(g: Graph, edge: Element, name: string)
    ensures DecodedTarget(g, edge) == name <==> IsReadBy(g, edge, name)
  {
  }

  // ---------------------------------------------------------------------------------------------
  // The relationships of an element
  // ---------------------------------------------------------------------------------------------

  ghost predicate StartsAt(g: Graph, n: nat, x: Id) {
    n < |g.order| && g.order[n] in g.elements &&
      match g.elements[g.order[n]].relationship
      case None => false
      case Some(ends) => x in ends.source
  }

  /** The edge in place `n` of the key order starts at the element and says something. */
  ghost predicate SpeaksAt(g: Graph, e: Element, n: nat) {
    StartsAt(g, n, e.id) && exists k :: Says(g, g.elements[g.order[n]], e, k)
  }

  ghost predicate IsRefusedAt(g: Graph, e: Element, n: nat) {
    StartsAt(g, n, e.id) && IsRefused(g, g.elements[g.order[n]], e)
  }

  ghost predicate IsReading(g: Graph, e: Element, n: nat, rel: HirRelationship) {
    && n < |g.order| && g.order[n] in g.elements && Says(g, g.elements[g.order[n]], e, rel.kind)
    && IsReadBy(g, g.elements[g.order[n]], rel.target) && rel.resolvedTarget == Some(rel.target)
  }

  ghost predicate Increasing(places: seq<nat>) {
    forall i, j :: 0 <= i < j < |places| ==> places[i] < places[j]
  }

  /** From some place on, the edges of the element that say something, in key order. */
  ghost predicate ReadsFrom(g: Graph, e: Element, start: nat, rels: seq<HirRelationship>, places: seq<nat>) {
    && |places| == |rels| && Increasing(places)
    && (forall n: nat :: n in places <==> start <= n && SpeaksAt(g, e, n))
    && (forall i :: 0 <= i < |rels| ==> IsReading(g, e, places[i], rels[i]))
  }

  lemma SpeakingIsRead(g: Graph, e: Element, n: nat)
    requires StartsAt(g, n, e.id)
    ensures var kind := DecodeKind(g, g.elements[g.order[n]], e);
      && (kind.InvalidAttribute? <==> IsRefusedAt(g, e, n))
      && (kind.Ok? && kind.value.Some? <==> SpeaksAt(g, e, n))
      && (kind.Ok? && kind.value.Some? ==>
            var t := DecodedTarget(g, g.elements[g.order[n]]);
            IsReading(g, e, n, HirRelationship(kind.value.value, t, Some(t))))
  {
    hide DecodeKind, Says, IsRefused, DecodedTarget, IsReadBy, StartsAt;
    StartsInside(g, n, e.id);
    var edge := g.elements[g.order[n]];
    forall k
      ensures DecodeKind(g, edge, e) == Result.Ok(Some(k)) <==> Says(g, edge, e, k)
      ensures DecodeKind(g, edge, e).InvalidAttribute? <==> IsRefused(g, edge, e)
    {
      EdgeIsRead(g, edge, e, k);
    }
    EdgeIsRead(g, edge, e, Specializes);
    TargetIsReadBy(g, edge, DecodedTarget(g, edge));
    var kind := DecodeKind(g, edge, e);
    assert kind.Ok? && kind.value.Some? ==> Says(g, edge, e, kind.value.value);
  }

  lemma StartsInside(g: Graph, n: nat, x: Id)
    requires StartsAt(g, n, x)
    ensures n < |g.order| && g.order[n] in g.elements
  {
  }

  lemma FirstEdge(g: Graph, x: Id, n: nat)
    requires n < |g.order|
    ensures EdgesFrom(g, g.order[n..], x) ==
            (if StartsAt(g, n, x) then [g.elements[g.order[n]]] else []) + EdgesFrom(g, g.order[n + 1..], x)
  {
    assert g.order[n..][0] == g.order[n] && g.order[n..][1..] == g.order[n + 1..];
  }

  /** One place more at the front. */
  lemma ReadsBefore(g: Graph, e: Element, n: nat, rels: seq<HirRelationship>, places: seq<nat>, rel: HirRelationship)
    requires ReadsFrom(g, e, n + 1, rels, places)
    ensures !SpeaksAt(g, e, n) ==> ReadsFrom(g, e, n, rels, places)
    ensures SpeaksAt(g, e, n) && IsReading(g, e, n, rel) ==> ReadsFrom(g, e, n, [rel] + rels, [n] + places)
  {
    hide SpeaksAt, IsReading;
    forall m: nat ensures m in [n] + places <==> m == n || m in places {
    }
    forall m: nat | m in places ensures n < m {
      assert m in places <==> n + 1 <= m && SpeaksAt(g, e, m);
    }
    if SpeaksAt(g, e, n) && IsReading(g, e, n, rel) {
      forall i | 0 <= i < |places| + 1 ensures IsReading(g, e, ([n] + places)[i], ([rel] + rels)[i]) {
        if i > 0 {
          assert IsReading(g, e, places[i - 1], rels[i - 1]);
        }
      }
      forall i, j | 0 <= i < j < |places| + 1 ensures ([n] + places)[i] < ([n] + places)[j] {
        assert places[j - 1] in places;
      }
    }
  }

  lemma {:induction false} EdgesAreRead(g: Graph, e: Element, start: nat) returns (places: seq<nat>)
    requires start <= |g.order|
    ensures var r := DecodeEdges(g, e, EdgesFrom(g, g.order[start..], e.id));
      && (r.InvalidAttribute? <==> exists n: nat :: start <= n && IsRefusedAt(g, e, n))
      && (r.Ok? ==> ReadsFrom(g, e, start, r.value, places))
    decreases |g.order| - start
  {
    hide DecodeKind, DecodedTarget, SpeaksAt, IsRefusedAt, IsReading, ReadsFrom, StartsAt, EdgesFrom;
    if start == |g.order| {
      places := [];
      NothingFurther(g, e);
    } else {
      places := EdgesAreRead(g, e, start + 1);
      var edges, rest := EdgesFrom(g, g.order[start..], e.id), EdgesFrom(g, g.order[start + 1..], e.id);
      var later := DecodeEdges(g, e, rest);
      FirstEdge(g, e.id, start);
      if StartsAt(g, start, e.id) {
        StartsInside(g, start, e.id);
        SpeakingIsRead(g, e, start);
        assert edges[0] == g.elements[g.order[start]] && edges[1..] == rest;
        var kind, t := DecodeKind(g, edges[0], e), DecodedTarget(g, edges[0]);
        if later.Ok? && kind.Ok? {
          ReadsBefore(g, e, start, later.value, places,
              HirRelationship(if kind.value.Some? then kind.value.value else Subsets, t, Some(t)));
          if kind.value.Some? {
            places := [start] + places;
          }
        }
      } else {
        SilentElsewhere(g, e, start);
        assert edges == rest;
        if later.Ok? {
          ReadsBefore(g, e, start, later.value, places, HirRelationship(Subsets, "", None));
        }
      }
    }
  }

  lemma SilentElsewhere(g: Graph, e: Element, n: nat)
    requires !StartsAt(g, n, e.id)
    ensures !SpeaksAt(g, e, n) && !IsRefusedAt(g, e, n)
  {
  }

  lemma NothingFurther(g: Graph, e: Element)
    ensures ReadsFrom(g, e, |g.order|, [], []) && EdgesFrom(g, g.order[|g.order|..], e.id) == []
    ensures forall n: nat :: |g.order| <= n ==> !IsRefusedAt(g, e, n)
  {
  }

  // ---------------------------------------------------------------------------------------------
  // Symbols
  // ---------------------------------------------------------------------------------------------

  ghost predicate ContentAt(g: Graph, n: nat) {
    n < |g.order| && g.order[n] in g.elements && g.elements[g.order[n]].kind.IsContent()
  }

  /** From some place on, the targets of the specializations, in order. */
  ghost predicate SupertypesFrom(rels: seq<HirRelationship>, start: nat, supertypes: seq<string>, places: seq<nat>) {
    && |places| == |supertypes| && Increasing(places)
    && (forall n: nat :: n in places <==> start <= n < |rels| && rels[n].kind.Specializes?)
    && (forall i :: 0 <= i < |places| ==> places[i] < |rels| && supertypes[i] == rels[places[i]].target)
  }

  /** The supertypes are the targets of the specializations, in order. */
  ghost predicate AreSupertypes(rels: seq<HirRelationship>, supertypes: seq<string>) {
    exists places: seq<nat> :: SupertypesFrom(rels, 0, supertypes, places)
  }

  /** The symbol that content is read as: named as it is named, or by its id, with all that its edges say. */
  ghost predicate IsSymbolOf(g: Graph, e: Element, s: HirSymbol) {
    && s.elementId == e.id && s.kind == SymbolKindOf(e.kind) && s.terminalRef == None && s.value == None
    && (match e.qualifiedName
        case Some(q) => s.qualifiedName == q
        case None => (match e.name case Some(n) => s.qualifiedName == n case None => s.qualifiedName == e.id))
    && (match e.name
        case Some(n) => s.name == n
        case None => if HasSeparator(s.qualifiedName)
                     then exists outer: string :: InitAndLast(s.qualifiedName, outer, s.name)
                     else s.name == s.qualifiedName)
    && (exists places :: ReadsFrom(g, e, 0, s.relationships, places))
    && AreSupertypes(s.relationships, s.supertypes)
  }

  lemma SupertypesBefore(rels: seq<HirRelationship>, n: nat, supertypes: seq<string>, places: seq<nat>)
    requires n < |rels| && SupertypesFrom(rels, n + 1, supertypes, places)
    ensures if rels[n].kind.Specializes? then SupertypesFrom(rels, n, [rels[n].target] + supertypes, [n] + places)
            else SupertypesFrom(rels, n, supertypes, places)
  {
    forall m: nat ensures m in [n] + places <==> m == n || m in places {
    }
    forall i, j | 0 <= i < j < |places| + 1 ensures ([n] + places)[i] < ([n] + places)[j] {
      assert places[j - 1] in places;
    }
  }

  lemma {:induction false} SupertypesAre(rels: seq<HirRelationship>, start: nat) returns (places: seq<nat>)
    requires start <= |rels|
    ensures SupertypesFrom(rels, start, SpecializedTargets(rels[start..]), places)
    decreases |rels| - start
  {
    hide SupertypesFrom;
    if start == |rels| {
      places := [];
      assert SupertypesFrom(rels, start, [], []) by {
        NoSupertypes(rels);
      }
    } else {
      places := SupertypesAre(rels, start + 1);
      assert rels[start..][0] == rels[start] && rels[start..][1..] == rels[start + 1..];
      var later := SpecializedTargets(rels[start + 1..]);
      assert [] + later == later;
      SupertypesBefore(rels, start, later, places);
      if rels[start].kind.Specializes? {
        places := [start] + places;
      }
    }
  }

  lemma NoSupertypes(rels: seq<HirRelationship>)
    ensures SupertypesFrom(rels, |rels|, [], [])
  {
  }

  lemma ElementIsRead(g: Graph, e: Element)
    ensures var r := DecodeElement(g, e);
      && (r.InvalidAttribute? <==> exists n: nat :: IsRefusedAt(g, e, n))
      && (r.Ok? ==> IsSymbolOf(g, e, r.value))
  {
    hide DecodeEdges, EdgesFrom, IsRefusedAt, ReadsFrom, LastSegment, SpecializedTargets, InitAndLast, SymbolKindOf,
      Increasing, HasSeparator, SupertypesFrom;
    var places := EdgesAreRead(g, e, 0);
    assert g.order[0..] == g.order;
    var r := DecodeElement(g, e);
    if r.Ok? {
      var kept := SupertypesAre(r.value.relationships, 0);
      assert r.value.relationships[0..] == r.value.relationships;
      NameIsLast(r.value.qualifiedName);
    }
  }

  lemma NameIsLast(q: string)
    ensures if HasSeparator(q) then exists outer: string :: InitAndLast(q, outer, LastSegment(q))
            else LastSegment(q) == q
  {
    hide InitAndLast, RSplitOnce, HasSeparator;
    RSplitIsLast(q);
    if HasSeparator(q) {
      var split := RSplitOnce(q);
      assert InitAndLast(q, split.value.0, LastSegment(q));
    }
  }

  /** From some place on, the content elements as symbols, in key order. */
  ghost predicate SymbolsFrom(g: Graph, start: nat, symbols: seq<HirSymbol>, places: seq<nat>) {
    && |places| == |symbols| && Increasing(places)
    && (forall n: nat :: n in places <==> start <= n && ContentAt(g, n))
    && (forall i :: 0 <= i < |symbols| ==>
          ContentAt(g, places[i]) && IsSymbolOf(g, g.elements[g.order[places[i]]], symbols[i]))
  }

  /** The content element in a place has an edge that is refused. */
  ghost predicate RefusesAt(g: Graph, n: nat) {
    ContentAt(g, n) && exists m: nat :: IsRefusedAt(g, g.elements[g.order[n]], m)
  }

  lemma SymbolsBefore(g: Graph, n: nat, symbols: seq<HirSymbol>, places: seq<nat>, s: HirSymbol)
    requires SymbolsFrom(g, n + 1, symbols, places)
    ensures !ContentAt(g, n) ==> SymbolsFrom(g, n, symbols, places)
    ensures ContentAt(g, n) && IsSymbolOf(g, g.elements[g.order[n]], s) ==>
              SymbolsFrom(g, n, [s] + symbols, [n] + places)
  {
    hide ContentAt, IsSymbolOf;
    ContentInside(g, n);
    forall m: nat | m in places ensures n < m {
      assert m in places <==> n + 1 <= m && ContentAt(g, m);
    }
    if ContentAt(g, n) && IsSymbolOf(g, g.elements[g.order[n]], s) {
      var all, more := [n] + places, [s] + symbols;
      forall i | 0 <= i < |all| ensures ContentAt(g, all[i]) {
        assert i > 0 ==> all[i] == places[i - 1] && ContentAt(g, places[i - 1]);
      }
      forall i | 0 <= i < |all| ensures all[i] < |g.order| && g.order[all[i]] in g.elements
          && IsSymbolOf(g, g.elements[g.order[all[i]]], more[i]) {
        ContentInside(g, all[i]);
        if i > 0 {
          assert IsSymbolOf(g, g.elements[g.order[places[i - 1]]], symbols[i - 1]);
        }
      }
      forall i, j | 0 <= i < j < |all| ensures all[i] < all[j] {
        assert places[j - 1] in places;
      }
    }
  }

  lemma ContentInside(g: Graph, n: nat)
    ensures ContentAt(g, n) ==> n < |g.order| && g.order[n] in g.elements
  {
  }

  lemma {:induction false} ElementsAreRead(g: Graph, start: nat) returns (places: seq<nat>)
    requires start <= |g.order|
    ensures var r := DecodeElements(g, g.order[start..]);
      && (r.InvalidAttribute? <==> exists n: nat :: start <= n && RefusesAt(g, n))
      && (r.Ok? ==> SymbolsFrom(g, start, r.value, places))
    decreases |g.order| - start
  {
    hide DecodeElement, IsSymbolOf, IsRefusedAt, SymbolsFrom, RefusesAt;
    if start == |g.order| {
      places := [];
      NoSymbolsFurther(g);
    } else {
      places := ElementsAreRead(g, start + 1);
      assert g.order[start..][0] == g.order[start] && g.order[start..][1..] == g.order[start + 1..];
      var later := DecodeElements(g, g.order[start + 1..]);
      RefusesHere(g, start);
      if ContentAt(g, start) {
        var e := g.elements[g.order[start]];
        ElementIsRead(g, e);
        var s := DecodeElement(g, e);
        if s.Ok? && later.Ok? {
          SymbolsBefore(g, start, later.value, places, s.value);
          places := [start] + places;
        }
      } else if later.Ok? {
        SymbolsBefore(g, start, later.value, places, HirSymbol("", "", "", SymOther, [], [], None, None));
      }
    }
  }

  lemma RefusesHere(g: Graph, n: nat)
    ensures RefusesAt(g, n) <==> ContentAt(g, n) && exists m: nat :: IsRefusedAt(g, g.elements[g.order[n]], m)
    ensures (exists m: nat :: n <= m && RefusesAt(g, m)) <==>
              RefusesAt(g, n) || exists m: nat :: n + 1 <= m && RefusesAt(g, m)
  {
    hide IsRefusedAt, ContentAt;
    ContentInside(g, n);
  }

  lemma NoSymbolsFurther(g: Graph)
    ensures SymbolsFrom(g, |g.order|, [], []) && g.order[|g.order|..] == []
    ensures forall n: nat :: |g.order| <= n ==> !RefusesAt(g, n)
  {
  }

  /** Any graph at all is either read, its content elements becoming symbols in key order with all that their edges say,
      or refused, which happens exactly if some content element has an edge that is refused. */
  lemma ModelIsRead(g: Graph) returns (places: seq<nat>)
    ensures SymbolsFromModel(g).InvalidAttribute? <==> exists n: nat :: RefusesAt(g, n)
    ensures SymbolsFromModel(g).Ok? ==> SymbolsFrom(g, 0, SymbolsFromModel(g).value, places)
  {
    hide DecodeElements, RefusesAt, SymbolsFrom;
    places := ElementsAreRead(g, 0);
    assert g.order[0..] == g.order;
  }
}
