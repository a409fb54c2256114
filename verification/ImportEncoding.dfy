/** Imports in the built model: each import symbol becomes one edge, whose kind, ends and owner follow from how the
    import is written, and which nothing that is built later changes. */
module ImportEncoding {
  import opened Wrappers
  import opened ElementKinds
  import opened ModelGraph
  import opened Wrapping
  import opened Names
  import opened Scopes
  import opened Segments
  import opened Integrate
  import opened GeneratedIds
  import opened EncodeSteps
  import opened EncodeSound
  import opened BuildFrames
  import opened EncodeNames

  // ---------------------------------------------------------------------------------------------
  // What an import is encoded as
  // ---------------------------------------------------------------------------------------------

  ghost predicate IsWildcardName(name: string) {
    exists namespace: string :: name == namespace + "::*"
  }

  /** The package that an import's qualified name puts before its first mark. */
  ghost predicate StandsIn(symbol: HirSymbol, package: string) {
    exists rest: string :: symbol.qualifiedName == package + "::import:" + rest
      && forall k :: 0 <= k < |package| ==> !StartsWith(symbol.qualifiedName[k..], "::import:")
  }

  /** The owner of an import is the element of the package that it stands in, if there is one. */
  ghost predicate IsImportOwner(symbols: seq<HirSymbol>, symbol: HirSymbol, owner: Option<Id>) {
    if exists p, j :: StandsIn(symbol, p) && 0 <= j < |symbols| && symbols[j].qualifiedName == p then
      exists p, j :: StandsIn(symbol, p) && 0 <= j < |symbols| && symbols[j].qualifiedName == p
        && owner == Some(symbols[j].elementId)
    else owner == None
  }

  /** An import's edge: from its package, or from itself where it has none, to what is imported, as a namespace import
      if the name ends in the wildcard and as a membership import if not. */
  ghost predicate EncodesImport(e: Element, symbol: HirSymbol, owner: Option<Id>) {
    && e.id == symbol.elementId && e.owner == owner && e.kind.Relation? && e.relationship.Some?
    && e.relationship.value.source == [if owner.Some? then owner.value else symbol.elementId]
    && |e.relationship.value.target| == 1
    && if IsWildcardName(symbol.name) then
         && e.kind.relation == NamespaceImport && IsTrimmed(symbol.name, "::*", e.relationship.value.target[0])
         && e.properties == map["importedNamespace" := Text(e.relationship.value.target[0])]
       else
         && e.kind.relation == MembershipImport && e.relationship.value.target[0] == symbol.name
         && e.properties == map["importedMembership" := Text(symbol.name)]
  }

  lemma ImportElementEncodes(symbol: HirSymbol, owner: Option<Id>)
    ensures EncodesImport(ImportElement(symbol, owner), symbol, owner)
  {
    hide EndsWith, TrimEnd, IsTrimmed;
    EndsWithIsSuffix(symbol.name, "::*");
    TrimEndIsTrimmed(symbol.name, "::*");
  }

  // ---------------------------------------------------------------------------------------------
  // An import is encoded when its turn comes
  // ---------------------------------------------------------------------------------------------

  lemma StaysEncoded(g: Graph, h: Graph, x: Id, symbol: HirSymbol, owner: Option<Id>)
    requires Stays(g, h, x) && EncodesImport(g.elements[x], symbol, owner)
    ensures EncodesImport(h.elements[x], symbol, owner)
  {
    hide IsTrimmed, IsWildcardName;
  }

  lemma ImportIsInserted(g: Graph, symbol: HirSymbol, owner: Option<Id>)
    ensures var h := EncodeImport(g, symbol, owner);
      symbol.elementId in h.elements && EncodesImport(h.elements[symbol.elementId], symbol, owner)
  {
    hide EncodesImport;
    var e := ImportElement(symbol, owner);
    ImportElementEncodes(symbol, owner);
    var h := g.Insert(e);
    var k := EncodeImport(g, symbol, owner);
    assert Stays(h, k, e.id);
    StaysEncoded(h, k, e.id, symbol, owner);
  }

  /** An import among the first symbols is encoded, and stays so. */
  lemma {:induction false} PrefixEncodesImport(symbols: seq<HirSymbol>, ctx: Context, n: nat, i: nat)
    requires Proper(symbols) && i < n <= |symbols| && symbols[i].IsImport()
    ensures var g, x := EncodeSymbols(ctx, symbols[..n]).g, symbols[i].elementId;
      x in g.elements && EncodesImport(g.elements[x], symbols[i], OwnerId(ctx.names, symbols[i]))
  {
    hide EncodesImport, EncodeSymbol, ClassOf, OwnerId, ParentName;
    var x, owner := symbols[i].elementId, OwnerId(ctx.names, symbols[i]);
    assert symbols[..n][..n - 1] == symbols[..n - 1] && symbols[..n][n - 1] == symbols[n - 1];
    var b := EncodeSymbols(ctx, symbols[..n - 1]);
    if i == n - 1 {
      ImportIsInserted(b.g, symbols[i], owner);
      assert EncodeSymbol(b, ctx, symbols[i]).g == EncodeImport(b.g, symbols[i], owner) by {
        EncodesAsImport(b, ctx, symbols[i]);
      }
    } else {
      PrefixEncodesImport(symbols, ctx, n - 1, i);
      OutlivesAsSymbol(x, b.counter);
      EncodeSymbolStays(b, ctx, symbols[n - 1], x);
      StaysIn(b.g, EncodeSymbol(b, ctx, symbols[n - 1]).g, x);
      StaysEncoded(b.g, EncodeSymbol(b, ctx, symbols[n - 1]).g, x, symbols[i], owner);
    }
  }

  lemma EncodesAsImport(b: Build, ctx: Context, s: HirSymbol)
    requires s.IsImport()
    ensures EncodeSymbol(b, ctx, s).g == EncodeImport(b.g, s, OwnerId(ctx.names, s))
  {
  }

  // ---------------------------------------------------------------------------------------------
  // The finished model
  // ---------------------------------------------------------------------------------------------

  lemma ParentStandsIn(symbol: HirSymbol, package: string)
    requires symbol.IsImport()
    ensures ParentName(symbol) == Some(package) <==> StandsIn(symbol, package)
  {
    hide StartsWith;
    var q, mark := symbol.qualifiedName, Find(symbol.qualifiedName, "::import:");
    FindFromIsFirst(q, "::import:", 0);
    if mark.Some? {
      PrefixSplits(q, mark.value);
    }
    if StandsIn(symbol, package) {
      var rest: string :| q == package + "::import:" + rest;
      PrefixStarts(q, package, rest);
      assert mark.Some? && mark.value == |package|;
    }
  }

  lemma PrefixSplits(q: string, k: nat)
    requires k <= |q| && StartsWith(q[k..], "::import:")
    ensures |q| >= k + 9 && q == q[..k] + "::import:" + q[k + 9..]
  {
    assert q == q[..k] + q[k..];
    assert q[k..] == q[k..][..9] + q[k..][9..];
  }

  lemma PrefixStarts(q: string, package: string, rest: string)
    requires q == package + "::import:" + rest
    ensures StartsWith(q[|package|..], "::import:") && q[..|package|] == package
  {
    assert q[|package|..] == "::import:" + rest;
  }

  lemma OwnerIsImportOwner(symbols: seq<HirSymbol>, symbol: HirSymbol)
    requires Proper(symbols) && symbol.IsImport()
    ensures IsImportOwner(symbols, symbol, OwnerId(NameMap(symbols), symbol))
  {
    hide StandsIn, ParentName;
    forall p ensures ParentName(symbol) == Some(p) <==> StandsIn(symbol, p) {
      ParentStandsIn(symbol, p);
    }
    var parent := ParentName(symbol);
    if parent.Some? && parent.value in NameMap(symbols) {
      var j := NameMapKeys(symbols, parent.value);
    } else if p, j :| StandsIn(symbol, p) && 0 <= j < |symbols| && symbols[j].qualifiedName == p {
      NameMapAt(symbols, j);
    }
  }

  /** In the finished model every import symbol is one edge, as it is written: a namespace import of the name without
      wildcards, or a membership import of the name, from the package that it stands in. */
  lemma ImportIsEncoded(symbols: seq<HirSymbol>, scan: map<(string, string), Id>, i: nat)
    requires Proper(symbols) && i < |symbols| && symbols[i].IsImport()
    ensures var m, x := ModelFromSymbols(symbols, scan), symbols[i].elementId;
      && x in m.elements && EncodesImport(m.elements[x], symbols[i], m.elements[x].owner)
      && IsImportOwner(symbols, symbols[i], m.elements[x].owner)
  {
    hide EncodesImport, IsImportOwner, EncodeSymbols, OwnerId, ClassOf, WrapList, Stays;
    var ctx, x := Context(NameMap(symbols), scan), symbols[i].elementId;
    var g, owner := Unwrapped(symbols, scan), OwnerId(NameMap(symbols), symbols[i]);
    assert symbols[..|symbols|] == symbols;
    PrefixEncodesImport(symbols, ctx, |symbols|, i);
    OwnerIsImportOwner(symbols, symbols[i]);
    EncodedIsNoContent(g.elements[x], symbols[i], owner);
    FinishedStays(symbols, scan, x);
    StaysIn(g, ModelFromSymbols(symbols, scan), x);
    StaysEncoded(g, ModelFromSymbols(symbols, scan), x, symbols[i], owner);
    EncodedOwner(ModelFromSymbols(symbols, scan).elements[x], symbols[i], owner);
  }

  lemma EncodedIsNoContent(e: Element, symbol: HirSymbol, owner: Option<Id>)
    requires EncodesImport(e, symbol, owner)
    ensures !e.kind.IsContent()
  {
  }

  lemma EncodedOwner(e: Element, symbol: HirSymbol, owner: Option<Id>)
    requires EncodesImport(e, symbol, owner)
    ensures e.owner == owner
  {
  }
}
