/** What resolving a name answers, told from the visibility maps and the name index alone. */
module NameLookup {
  import opened Wrappers
  import opened ElementKinds
  import opened IndexData
  import opened Names
  import opened Scopes
  import opened Indexing
  import opened Resolver
  import opened Segments

  // ---------------------------------------------------------------------------------------------
  // Paths are split at their first separator
  // ---------------------------------------------------------------------------------------------

  /** A name is a path exactly if it has a separator. */
  lemma PathHasSeparator(name: string)
    ensures IsPath(name) <==> HasSeparator(name)
  {
    hide HasSeparator;
    FindFindsSeparator(name);
  }

  lemma SplitIsFirst(path: string)
    requires IsPath(path)
    ensures FirstAndRest(path, SplitFirst(path).0, SplitFirst(path).1)
  {
    var k := Names.Find(path, "::").value;
    FindFromIsFirst(path, "::", 0);
    SeparatorIsPrefix(path, k);
    assert path == path[..k] + path[k..k + 2] + path[k + 2..];
    assert path[k..k + 2] == "::";
    forall j: nat | j < k ensures !SeparatorAt(path, j) {
      SeparatorIsPrefix(path, j);
    }
  }

  lemma FirstIsUnique(path: string, first: string, rest: string)
    requires FirstAndRest(path, first, rest)
    ensures IsPath(path) && SplitFirst(path) == (first, rest)
  {
    assert SeparatorAt(path, |first|);
    PathHasSeparator(path);
    SplitIsFirst(path);
    var (f, r) := SplitFirst(path);
    assert SeparatorAt(path, |f|);
    assert |f| == |first|;
    assert path[..|f|] == f && path[..|first|] == first;
    assert path[|f| + 2..] == r && path[|first| + 2..] == rest;
  }

  // ---------------------------------------------------------------------------------------------
  // What one scope answers
  // ---------------------------------------------------------------------------------------------

  /** A qualified name leads to a symbol of the index. */
  ghost predicate LeadsTo(i: IndexState, q: string, x: IndexedSymbol) {
    q in i.byQualifiedName && i.byQualifiedName[q] < |i.symbols| && i.symbols[i.byQualifiedName[q]] == x
  }

  ghost predicate DefinesHere(s: Snapshot, scope: string, name: string, x: IndexedSymbol) {
    scope in s.visibility && name in s.visibility[scope].directDefs
        && LeadsTo(s.index, s.visibility[scope].directDefs[name], x)
  }

  ghost predicate ImportsHere(s: Snapshot, scope: string, name: string, x: IndexedSymbol) {
    scope in s.visibility && name in s.visibility[scope].imports
        && LeadsTo(s.index, s.visibility[scope].imports[name], x)
  }

  /** The symbol that the scope belongs to has supertypes or annotations and inherits the name. */
  ghost predicate InheritsHere(s: Snapshot, memo: Memo, scope: string, name: string, x: IndexedSymbol) {
    scope != "" && exists owner ::
      LeadsTo(s.index, scope, owner) && (owner.supertypes != [] || owner.annotations != [])
          && Inherited(s, memo, owner, name) == Some(x)
  }

  /** A definition comes before an import. */
  ghost predicate ShowsHere(s: Snapshot, scope: string, name: string, x: IndexedSymbol) {
    DefinesHere(s, scope, name, x) || (ImportsHere(s, scope, name, x) && forall y :: !DefinesHere(s, scope, name, y))
  }

  /** Both come before an inherited member, which is asked for where inheritance counts. */
  ghost predicate AnswersHere(s: Snapshot, memo: Option<Memo>, scope: string, name: string, x: IndexedSymbol) {
    || ShowsHere(s, scope, name, x)
    || (memo.Some? && InheritsHere(s, memo.value, scope, name, x) && forall y :: !ShowsHere(s, scope, name, y))
  }

  lemma FindLeads(s: Snapshot, q: string, x: IndexedSymbol)
    ensures Resolver.Find(s, q) == Some(x) <==> LeadsTo(s.index, q, x)
  {
  }

  lemma VisibleShows(s: Snapshot, scope: string, name: string, x: IndexedSymbol)
    ensures VisibleIn(s, scope, name) == Some(x) <==> ShowsHere(s, scope, name, x)
  {
    hide LeadsTo, Resolver.Find;
    forall q, y ensures Resolver.Find(s, q) == Some(y) <==> LeadsTo(s.index, q, y) {
      FindLeads(s, q, y);
    }
    if scope in s.visibility && name in s.visibility[scope].directDefs {
      var found := Resolver.Find(s, s.visibility[scope].directDefs[name]);
      assert found.Some? ==> DefinesHere(s, scope, name, found.value);
    }
  }

  lemma HitAnswers(s: Snapshot, memo: Memo, scope: string, name: string, x: IndexedSymbol)
    ensures Hit(s, memo, scope, name) == Some(x) <==> AnswersHere(s, Some(memo), scope, name, x)
  {
    hide LeadsTo, VisibleIn, ShowsHere, Resolver.Find, Inherited;
    forall y ensures VisibleIn(s, scope, name) == Some(y) <==> ShowsHere(s, scope, name, y) {
      VisibleShows(s, scope, name, y);
    }
    assert VisibleIn(s, scope, name).Some? ==> ShowsHere(s, scope, name, VisibleIn(s, scope, name).value);
    forall y ensures Resolver.Find(s, scope) == Some(y) <==> LeadsTo(s.index, scope, y) {
      FindLeads(s, scope, y);
    }
  }

  // ---------------------------------------------------------------------------------------------
  // The first scope that answers
  // ---------------------------------------------------------------------------------------------

  ghost predicate SilentBefore(s: Snapshot, memo: Option<Memo>, chain: seq<string>, name: string, n: nat)
    requires n <= |chain|
  {
    forall j, y :: 0 <= j < n ==> !AnswersHere(s, memo, chain[j], name, y)
  }

  /** The answer of the first scope on a chain that has one, or else the symbol of exactly that name. */
  ghost predicate IsFound(s: Snapshot, memo: Option<Memo>, chain: seq<string>, name: string, x: IndexedSymbol) {
    || (exists k :: 0 <= k < |chain| && AnswersHere(s, memo, chain[k], name, x)
          && SilentBefore(s, memo, chain, name, k))
    || (SilentBefore(s, memo, chain, name, |chain|) && LeadsTo(s.index, name, x))
  }

  /** One scope more on the near end of the chain. */
  lemma FoundNearer(s: Snapshot, memo: Option<Memo>, scope: string, outer: seq<string>, name: string, x: IndexedSymbol)
    ensures IsFound(s, memo, [scope] + outer, name, x) <==>
      || AnswersHere(s, memo, scope, name, x)
      || ((forall y :: !AnswersHere(s, memo, scope, name, y)) && IsFound(s, memo, outer, name, x))
  {
    hide AnswersHere, LeadsTo;
    var chain := [scope] + outer;
    assert forall k :: 0 <= k < |outer| ==> outer[k] == chain[k + 1];
    assert chain[0] == scope;
    if AnswersHere(s, memo, scope, name, x) {
      assert SilentBefore(s, memo, chain, name, 0);
    }
    if forall y :: !AnswersHere(s, memo, scope, name, y) {
      forall n | 0 <= n <= |outer|
        ensures SilentBefore(s, memo, outer, name, n) <==> SilentBefore(s, memo, chain, name, n + 1)
      {
        SilentNearer(s, memo, scope, outer, name, n);
      }
      if k :| 0 <= k < |chain| && AnswersHere(s, memo, chain[k], name, x) && SilentBefore(s, memo, chain, name, k) {
        assert outer[k - 1] == chain[k];
      }
      if k :| 0 <= k < |outer| && AnswersHere(s, memo, outer[k], name, x) && SilentBefore(s, memo, outer, name, k) {
        assert chain[k + 1] == outer[k];
      }
    }
  }

  lemma SilentNearer(s: Snapshot, memo: Option<Memo>, scope: string, outer: seq<string>, name: string, n: nat)
    requires n <= |outer| && forall y :: !AnswersHere(s, memo, scope, name, y)
    ensures SilentBefore(s, memo, outer, name, n) <==> SilentBefore(s, memo, [scope] + outer, name, n + 1)
  {
    hide AnswersHere;
    var chain := [scope] + outer;
    assert forall k :: 0 <= k < |outer| ==> outer[k] == chain[k + 1];
    assert forall k :: 1 <= k < |chain| ==> chain[k] == outer[k - 1];
  }

  lemma {:induction false} WalkFinds(s: Snapshot, memo: Memo, scope: string, name: string, x: IndexedSymbol)
    ensures Walk(s, memo, scope, name) == Some(x) <==> IsFound(s, Some(memo), LexicalChain(scope), name, x)
    decreases |scope|
  {
    hide AnswersHere, LeadsTo, Hit, Resolver.Find, IsFound;
    forall y ensures Hit(s, memo, scope, name) == Some(y) <==> AnswersHere(s, Some(memo), scope, name, y) {
      HitAnswers(s, memo, scope, name, y);
    }
    assert Hit(s, memo, scope, name).Some? ==> AnswersHere(s, Some(memo), scope, name, Hit(s, memo, scope, name).value);
    var up := Up(scope);
    var outer := if up.Some? then LexicalChain(up.value) else [];
    assert LexicalChain(scope) == [scope] + outer;
    FoundNearer(s, Some(memo), scope, outer, name, x);
    if up.Some? {
      WalkFinds(s, memo, up.value, name, x);
    } else {
      FindLeads(s, name, x);
      FoundOnEmpty(s, Some(memo), name, x);
    }
  }

  lemma FoundOnEmpty(s: Snapshot, memo: Option<Memo>, name: string, x: IndexedSymbol)
    ensures IsFound(s, memo, [], name, x) <==> LeadsTo(s.index, name, x)
  {
    hide AnswersHere, LeadsTo;
  }

  lemma {:induction false} PlainWalkFinds(s: Snapshot, scope: string, name: string, x: IndexedSymbol)
    ensures PlainWalk(s, scope, name) == Some(x) <==> IsFound(s, None, LexicalChain(scope), name, x)
    decreases |scope|
  {
    hide ShowsHere, LeadsTo, VisibleIn, Resolver.Find, IsFound;
    forall y ensures VisibleIn(s, scope, name) == Some(y) <==> AnswersHere(s, None, scope, name, y) {
      VisibleShows(s, scope, name, y);
    }
    assert VisibleIn(s, scope, name).Some? ==> AnswersHere(s, None, scope, name, VisibleIn(s, scope, name).value);
    var up := Up(scope);
    var outer := if up.Some? then LexicalChain(up.value) else [];
    assert LexicalChain(scope) == [scope] + outer;
    FoundNearer(s, None, scope, outer, name, x);
    if up.Some? {
      PlainWalkFinds(s, up.value, name, x);
    } else {
      FindLeads(s, name, x);
      FoundOnEmpty(s, None, name, x);
    }
  }

  /** A name without separators resolves to what the first scope on the way out to the root answers that answers at
      all: to the live symbol that it defines under the name, or else imports, or else inherits; and if no scope
      answers, to the symbol of exactly that name. */
  lemma SimpleNameIsLookedUp(s: Snapshot, memo: Memo, scope: string, chain: seq<string>, name: string, x: IndexedSymbol)
    requires !HasSeparator(name) && IsOutward(chain, scope)
    ensures Resolve(s, memo, scope, name) == Some(x) <==> IsFound(s, Some(memo), chain, name, x)
    ensures Plain(s, scope, name) == Some(x) <==> IsFound(s, None, chain, name, x)
  {
    hide Walk, PlainWalk, IsFound, IsOutward;
    PathHasSeparator(name);
    OutwardIsUnique(chain, scope);
    WalkFinds(s, memo, scope, name, x);
    PlainWalkFinds(s, scope, name, x);
  }

  // ---------------------------------------------------------------------------------------------
  // Paths
  // ---------------------------------------------------------------------------------------------

  /** The last segment in the scope that was reached: shown there, or else simply inside it. */
  ghost predicate EndsAt(s: Snapshot, scope: string, name: string, x: IndexedSymbol) {
    ShowsHere(s, scope, name, x)
        || (LeadsTo(s.index, scope + "::" + name, x) && forall y :: !ShowsHere(s, scope, name, y))
  }

  lemma LastStepEnds(s: Snapshot, scope: string, name: string, x: IndexedSymbol)
    ensures LastStep(s, scope, name) == Some(x) <==> EndsAt(s, scope, name, x)
  {
    hide LeadsTo, VisibleIn, ShowsHere, Resolver.Find;
    forall y ensures VisibleIn(s, scope, name) == Some(y) <==> ShowsHere(s, scope, name, y) {
      VisibleShows(s, scope, name, y);
    }
    assert VisibleIn(s, scope, name).Some? ==> ShowsHere(s, scope, name, VisibleIn(s, scope, name).value);
    FindLeads(s, scope + "::" + name, x);
  }

  /** The scope that a symbol stands for: an alias that names something stands for that. */
  ghost predicate StandsFor(x: IndexedSymbol, scope: string) {
    scope == if x.kind.SymAlias? && |x.supertypes| > 0 then x.supertypes[0] else x.qualifiedName
  }

  /** A path that is no symbol's exact name: its first segment is resolved where the path stands, and the rest in the
      scope that the symbol found stands for, as a path again or as a last segment. */
  lemma PathIsFollowed(s: Snapshot, memo: Memo, scope: string, path: string, first: string, rest: string,
          target: string, x: IndexedSymbol)
    requires FirstAndRest(path, first, rest) && forall y :: !LeadsTo(s.index, path, y)
    ensures Resolve(s, memo, scope, first) == None ==> Resolve(s, memo, scope, path) == None
    ensures Resolve(s, memo, scope, first).Some? && StandsFor(Resolve(s, memo, scope, first).value, target) ==>
      if HasSeparator(rest) then Resolve(s, memo, scope, path) == Resolve(s, memo, target, rest)
      else Resolve(s, memo, scope, path) == Some(x) <==> EndsAt(s, target, rest, x)
  {
    hide LeadsTo, Resolver.Find, Walk, EndsAt, LastStep, HasSeparator, IsPath, SplitFirst;
    FirstIsUnique(path, first, rest);
    PathHasSeparator(rest);
    LastStepEnds(s, target, rest, x);
    forall y ensures Resolver.Find(s, path) == Some(y) <==> LeadsTo(s.index, path, y) {
      FindLeads(s, path, y);
    }
    assert Resolver.Find(s, path) == None;
  }

  /** A path that is a symbol's exact name leads to that symbol, from wherever it stands. */
  lemma ExactPathLeads(s: Snapshot, memo: Memo, scope: string, path: string, x: IndexedSymbol)
    requires HasSeparator(path) && LeadsTo(s.index, path, x)
    ensures Resolve(s, memo, scope, path) == Some(x) && Plain(s, scope, path) == Some(x)
  {
    hide HasSeparator, IsPath, LeadsTo, Resolver.Find;
    PathHasSeparator(path);
    FindLeads(s, path, x);
  }

  /** What a name means in a scope. A simple name means what the first answering scope says. A path means the symbol
      of exactly that name, and if there is none, its first segment is followed into the scope that the symbol stands
      for, where the rest is meant. */
  ghost predicate Means(s: Snapshot, memo: Memo, scope: string, name: string, x: IndexedSymbol)
    decreases |name|
  {
    if !HasSeparator(name) then exists chain :: IsOutward(chain, scope) && IsFound(s, Some(memo), chain, name, x)
    else
      || LeadsTo(s.index, name, x)
      || ((forall y :: !LeadsTo(s.index, name, y))
            && exists first: string, rest: string, head: IndexedSymbol, target: string ::
            && FirstAndRest(name, first, rest) && |first| < |name| && |rest| < |name|
            && Means(s, memo, scope, first, head) && StandsFor(head, target)
            && if HasSeparator(rest) then Means(s, memo, target, rest, x) else EndsAt(s, target, rest, x))
  }

  lemma FirstAndRestAreShorter(path: string, first: string, rest: string)
    requires FirstAndRest(path, first, rest)
    ensures |first| < |path| && |rest| < |path|
  {
  }

  lemma SimpleMeans(s: Snapshot, memo: Memo, scope: string, name: string, x: IndexedSymbol)
    requires !HasSeparator(name)
    ensures Resolve(s, memo, scope, name) == Some(x) <==> Means(s, memo, scope, name, x)
  {
    hide Resolve, IsFound, IsOutward, HasSeparator;
    ChainIsOutward(scope);
    SimpleNameIsLookedUp(s, memo, scope, LexicalChain(scope), name, x);
    if chain :| IsOutward(chain, scope) && IsFound(s, Some(memo), chain, name, x) {
      SimpleNameIsLookedUp(s, memo, scope, chain, name, x);
    }
  }

  /** Resolving a name answers a symbol exactly if the name means it. */
  lemma {:induction false} ResolveMeans(s: Snapshot, memo: Memo, scope: string, name: string, x: IndexedSymbol)
    ensures Resolve(s, memo, scope, name) == Some(x) <==> Means(s, memo, scope, name, x)
    decreases |name|
  {
    hide Resolve, IsFound, IsOutward, HasSeparator, LeadsTo, EndsAt, FirstAndRest, SplitFirst, IsPath;
    if !HasSeparator(name) {
      SimpleMeans(s, memo, scope, name, x);
    } else if y :| LeadsTo(s.index, name, y) {
      ExactPathLeads(s, memo, scope, name, y);
      OneSymbol(s.index, name, x, y);
    } else {
      PathHasSeparator(name);
      SplitIsFirst(name);
      var (first, rest) := SplitFirst(name);
      FirstAndRestAreShorter(name, first, rest);
      PathMeans(s, memo, scope, name, first, rest, x);
      var start := Resolve(s, memo, scope, first);
      if start.Some? {
        var target := if start.value.kind.SymAlias? && |start.value.supertypes| > 0 then start.value.supertypes[0]
                      else start.value.qualifiedName;
        PathIsFollowed(s, memo, scope, name, first, rest, target, x);
        ResolveMeans(s, memo, scope, first, start.value);
        ResolveMeans(s, memo, target, rest, x);
      } else {
        PathIsFollowed(s, memo, scope, name, first, rest, "", x);
      }
      forall head ensures Means(s, memo, scope, first, head) <==> start == Some(head) {
        ResolveMeans(s, memo, scope, first, head);
      }
    }
  }

  lemma OneSymbol(i: IndexState, q: string, x: IndexedSymbol, y: IndexedSymbol)
    requires LeadsTo(i, q, y)
    ensures LeadsTo(i, q, x) <==> x == y
  {
  }

  /** The meaning of a path that is no exact name, with its segments given. */
  lemma PathMeans(s: Snapshot, memo: Memo, scope: string, path: string, first: string, rest: string, x: IndexedSymbol)
    requires HasSeparator(path) && FirstAndRest(path, first, rest) && forall y :: !LeadsTo(s.index, path, y)
    requires |first| < |path| && |rest| < |path|
    ensures Means(s, memo, scope, path, x) <==> exists head: IndexedSymbol, target: string ::
              && Means(s, memo, scope, first, head) && StandsFor(head, target)
              && if HasSeparator(rest) then Means(s, memo, target, rest, x) else EndsAt(s, target, rest, x)
  {
    hide HasSeparator, LeadsTo, EndsAt, FirstAndRest, IsOutward, IsFound, StandsFor;
    forall f: string, r: string | FirstAndRest(path, f, r) ensures f == first && r == rest {
      FirstIsUnique(path, first, rest);
      FirstIsUnique(path, f, r);
    }
  }

  // ---------------------------------------------------------------------------------------------
  // Names of types, without inheritance
  // ---------------------------------------------------------------------------------------------

  /** Without inheritance aliases are not followed, and only the whole path is tried as an exact name. */
  ghost predicate FollowsPlainly(s: Snapshot, scope: string, path: string, x: IndexedSymbol)
    decreases |path|
  {
    exists first: string, rest: string, chain: seq<string>, head: IndexedSymbol ::
      && FirstAndRest(path, first, rest) && |rest| < |path| && IsOutward(chain, scope)
            && IsFound(s, None, chain, first, head)
      && if HasSeparator(rest) then FollowsPlainly(s, head.qualifiedName, rest, x)
            else EndsAt(s, head.qualifiedName, rest, x)
  }

  ghost predicate MeansPlainly(s: Snapshot, scope: string, name: string, x: IndexedSymbol) {
    if !HasSeparator(name) then exists chain :: IsOutward(chain, scope) && IsFound(s, None, chain, name, x)
    else LeadsTo(s.index, name, x) || ((forall y :: !LeadsTo(s.index, name, y)) && FollowsPlainly(s, scope, name, x))
  }

  lemma FirstIsSimple(path: string, first: string, rest: string)
    requires FirstAndRest(path, first, rest)
    ensures !HasSeparator(first)
  {
    if k: nat :| SeparatorAt(first, k) {
      assert path[k] == first[k] && path[k + 1] == first[k + 1];
      assert SeparatorAt(path, k);
    }
  }

  lemma {:induction false} PlainPathFollows(s: Snapshot, scope: string, path: string, x: IndexedSymbol)
    requires IsPath(path)
    ensures PlainPath(s, scope, path) == Some(x) <==> FollowsPlainly(s, scope, path, x)
    decreases |path|
  {
    hide Plain, IsFound, IsOutward, HasSeparator, EndsAt, FirstAndRest, SplitFirst, IsPath, LastStep;
    SplitIsFirst(path);
    var (first, rest) := SplitFirst(path);
    FirstAndRestAreShorter(path, first, rest);
    FirstIsSimple(path, first, rest);
    PathHasSeparator(rest);
    ChainIsOutward(scope);
    var start := Plain(s, scope, first);
    if start.Some? {
      SimpleNameIsLookedUp(s, map[], scope, LexicalChain(scope), first, start.value);
      LastStepEnds(s, start.value.qualifiedName, rest, x);
      if IsPath(rest) {
        PlainPathFollows(s, start.value.qualifiedName, rest, x);
      }
    }
    forall f: string, r: string | FirstAndRest(path, f, r) ensures f == first && r == rest {
      FirstIsUnique(path, first, rest);
      FirstIsUnique(path, f, r);
    }
    forall chain, head | IsOutward(chain, scope) && IsFound(s, None, chain, first, head) ensures start == Some(head) {
      SimpleNameIsLookedUp(s, map[], scope, chain, first, head);
    }
  }

  /** Resolving the name of a type answers a symbol exactly if the name means it without inheritance. */
  lemma PlainMeans(s: Snapshot, scope: string, name: string, x: IndexedSymbol)
    ensures Plain(s, scope, name) == Some(x) <==> MeansPlainly(s, scope, name, x)
  {
    hide IsFound, IsOutward, HasSeparator, LeadsTo, FollowsPlainly, PlainPath, PlainWalk, IsPath, Resolver.Find;
    PathHasSeparator(name);
    if !HasSeparator(name) {
      ChainIsOutward(scope);
      SimpleNameIsLookedUp(s, map[], scope, LexicalChain(scope), name, x);
      if chain :| IsOutward(chain, scope) && IsFound(s, None, chain, name, x) {
        SimpleNameIsLookedUp(s, map[], scope, chain, name, x);
      }
    } else {
      PlainPathFollows(s, scope, name, x);
      forall y ensures Resolver.Find(s, name) == Some(y) <==> LeadsTo(s.index, name, y) {
        FindLeads(s, name, y);
      }
    }
  }
}
