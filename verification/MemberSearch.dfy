/** Finding a member in a scope and its supertypes: a depth-first search with one set of visited scopes. */
module MemberSearch {
  import opened Wrappers
  import opened IndexData
  import opened Scopes
  import opened Indexing
  import opened Resolver

  /** The live symbol that a scope's map gives for a name. */
  function Own(s: Snapshot, scope: string, name: string): (r: Option<IndexedSymbol>)
    ensures r.Some? ==> r.value in s.index.symbols
  {
    if scope !in s.visibility then None
    else
      var q := s.visibility[scope].Lookup(name);
      if q.Some? then Find(s, q.value) else None
  }

  /** The first enclosing scope, scanning back from `end`, whose map gives a live symbol for a name. */
  function InParents(s: Snapshot, scope: string, end: nat, name: string): (r: Option<IndexedSymbol>)
    requires end <= |scope|
    ensures r.Some? ==> r.value in s.index.symbols
    decreases end
  {
    if end <= 1 then None
    else
      var previous := PreviousTop(scope, end, 0);
      if previous.None? then None
      else
        var own := Own(s, scope[..previous.value], name);
        if own.Some? then own else InParents(s, scope, previous.value, name)
  }

  /** A supertype as seen from a scope: resolved there, or else in a scope around it. */
  function SuperOf(s: Snapshot, memo: Memo, scope: string, supertype: string): (r: Option<IndexedSymbol>)
    ensures r.Some? ==> r.value in s.index.symbols
  {
    var resolved := Resolve(s, memo, scope, supertype);
    if resolved.Some? then resolved else InParents(s, scope, |scope|, supertype)
  }

  function SuperScopes(s: Snapshot, memo: Memo, scope: string, supertypes: seq<string>): (r: seq<string>)
    ensures forall q :: q in r ==> q in AllNames(s.index.symbols)
  {
    if supertypes == [] then []
    else
      var found := SuperOf(s, memo, scope, supertypes[0]);
      (if found.Some? then [found.value.qualifiedName] else []) + SuperScopes(s, memo, scope, supertypes[1..])
  }

  /** The scopes of a scope's resolved supertypes. */
  function Successors(s: Snapshot, memo: Memo, scope: string): (r: seq<string>)
    ensures forall q :: q in r ==> q in AllNames(s.index.symbols)
  {
    var symbol := Find(s, scope);
    if symbol.Some? then SuperScopes(s, memo, scope, symbol.value.supertypes) else []
  }

  /** All the scopes that a search from `start` can meet. */
  ghost function Universe(s: Snapshot, start: string): set<string> {
    AllNames(s.index.symbols) + {start}
  }

  datatype Outcome = Outcome(found: Option<IndexedSymbol>, visited: set<string>)

  function SearchScope(s: Snapshot, memo: Memo, ghost start: string, scope: string, member: string,
          visited: set<string>): (r: Outcome)
    requires scope in Universe(s, start)
    ensures visited <= r.visited
    decreases |Universe(s, start) - visited|, 0
  {
    if scope in visited then Outcome(None, visited)
    else
      var own := Own(s, scope, member);
      if own.Some? then Outcome(own, visited + {scope})
      else
        assert Universe(s, start) - (visited + {scope}) == (Universe(s, start) - visited) - {scope};
        SearchScopes(s, memo, start, Successors(s, memo, scope), member, visited + {scope})
  }

  /** Tries scopes in order; what one search has visited the next ones skip. */
  function SearchScopes(s: Snapshot, memo: Memo, ghost start: string, scopes: seq<string>, member: string,
          visited: set<string>): (r: Outcome)
    requires forall q :: q in scopes ==> q in Universe(s, start)
    ensures visited <= r.visited
    decreases |Universe(s, start) - visited|, 1 + |scopes|
  {
    if scopes == [] then Outcome(None, visited)
    else
      var first := SearchScope(s, memo, start, scopes[0], member, visited);
      if first.found.Some? then first
      else
        FewerLeft(Universe(s, start), visited, first.visited);
        SearchScopes(s, memo, start, scopes[1..], member, first.visited)
  }

  lemma FewerLeft(all: set<string>, before: set<string>, after: set<string>)
    requires before <= after
    ensures |all - after| <= |all - before|
  {
    SubsetSize(all - after, all - before);
  }

  function FindMember(s: Snapshot, memo: Memo, scope: string, member: string): Option<IndexedSymbol> {
    SearchScope(s, memo, scope, scope, member, {}).found
  }

  // ---------------------------------------------------------------------------------------------
  // What the search finds
  // ---------------------------------------------------------------------------------------------

  ghost predicate IsRoute(s: Snapshot, memo: Memo, route: seq<string>) {
    route != [] && forall k :: 0 <= k < |route| - 1 ==> route[k + 1] in Successors(s, memo, route[k])
  }

  /** `scope` can be reached from `start` over resolved supertypes. */
  ghost predicate Leads(s: Snapshot, memo: Memo, start: string, scope: string) {
    exists route :: IsRoute(s, memo, route) && route[0] == start && route[|route| - 1] == scope
  }

  lemma LeadsToItself(s: Snapshot, memo: Memo, start: string)
    ensures Leads(s, memo, start, start)
  {
    assert IsRoute(s, memo, [start]) && [start][0] == start;
  }

  lemma LeadsFurther(s: Snapshot, memo: Memo, start: string, scope: string, next: string)
    requires next in Successors(s, memo, start) && Leads(s, memo, next, scope)
    ensures Leads(s, memo, start, scope)
  {
    hide Successors;
    var route :| IsRoute(s, memo, route) && route[0] == next && route[|route| - 1] == scope;
    var longer := [start] + route;
    forall k | 0 <= k < |longer| - 1 ensures longer[k + 1] in Successors(s, memo, longer[k]) {
      if k > 0 {
        assert route[k - 1 + 1] in Successors(s, memo, route[k - 1]);
        assert longer[k] == route[k - 1] && longer[k + 1] == route[k];
      }
    }
    assert IsRoute(s, memo, longer) && longer[0] == start && longer[|longer| - 1] == scope;
  }

  ghost predicate FoundFrom(s: Snapshot, memo: Memo, scope: string, member: string, r: Option<IndexedSymbol>) {
    exists q :: Leads(s, memo, scope, q) && Own(s, q, member) == r
  }

  /** Whatever is found belongs to a reachable scope. */
  lemma {:induction false} SearchScopeIsSound(s: Snapshot, memo: Memo, start: string, scope: string, member: string,
          visited: set<string>)
    requires scope in Universe(s, start)
    ensures var r := SearchScope(s, memo, start, scope, member, visited);
      r.found.Some? ==> FoundFrom(s, memo, scope, member, r.found)
    decreases |Universe(s, start) - visited|, 0
  {
    hide Own, Successors, Leads;
    if scope !in visited {
      LeadsToItself(s, memo, scope);
      if Own(s, scope, member).None? {
        assert Universe(s, start) - (visited + {scope}) == (Universe(s, start) - visited) - {scope};
        var next := SearchScopesIsSound(s, memo, start, Successors(s, memo, scope), member, visited + {scope});
        var r := SearchScope(s, memo, start, scope, member, visited).found;
        if r.Some? {
          var q :| Leads(s, memo, next, q) && Own(s, q, member) == r;
          LeadsFurther(s, memo, scope, q, next);
        }
      }
    }
  }

  lemma {:induction false} SearchScopesIsSound(s: Snapshot, memo: Memo, start: string, scopes: seq<string>,
          member: string, visited: set<string>)
    returns (next: string)
    requires forall q :: q in scopes ==> q in Universe(s, start)
    ensures var r := SearchScopes(s, memo, start, scopes, member, visited);
      r.found.Some? ==> next in scopes && FoundFrom(s, memo, next, member, r.found)
    decreases |Universe(s, start) - visited|, 1 + |scopes|
  {
    hide Own, Successors, Leads;
    next := "";
    if scopes != [] {
      var first := SearchScope(s, memo, start, scopes[0], member, visited);
      SearchScopeIsSound(s, memo, start, scopes[0], member, visited);
      if first.found.Some? {
        next := scopes[0];
      } else {
        FewerLeft(Universe(s, start), visited, first.visited);
        next := SearchScopesIsSound(s, memo, start, scopes[1..], member, first.visited);
      }
    }
  }

  /** A scope that has been searched through: it has no such member and its supertypes have been visited. */
  ghost predicate IsExhausted(s: Snapshot, memo: Memo, scope: string, member: string, visited: set<string>) {
    Own(s, scope, member).None? && forall q :: q in Successors(s, memo, scope) ==> q in visited
  }

  ghost predicate NewAreExhausted(s: Snapshot, memo: Memo, member: string, before: set<string>, after: set<string>) {
    before <= after && forall q :: q in after && q !in before ==> IsExhausted(s, memo, q, member, after)
  }

  lemma ExhaustedTrans(s: Snapshot, memo: Memo, member: string, a: set<string>, b: set<string>, c: set<string>)
    requires NewAreExhausted(s, memo, member, a, b) && NewAreExhausted(s, memo, member, b, c)
    ensures NewAreExhausted(s, memo, member, a, c)
  {
    hide Own, Successors;
    forall q | q in c && q !in a ensures IsExhausted(s, memo, q, member, c) {
      if q in b {
        assert IsExhausted(s, memo, q, member, b);
      }
    }
  }

  /** A search without result has exhausted everything it visited. */
  lemma {:induction false} SearchScopeExhausts(s: Snapshot, memo: Memo, start: string, scope: string, member: string,
          visited: set<string>)
    requires scope in Universe(s, start) && SearchScope(s, memo, start, scope, member, visited).found.None?
    ensures var r := SearchScope(s, memo, start, scope, member, visited);
      scope in r.visited && NewAreExhausted(s, memo, member, visited, r.visited)
    decreases |Universe(s, start) - visited|, 0
  {
    hide Own, Successors;
    if scope !in visited {
      var marked := visited + {scope};
      assert Universe(s, start) - marked == (Universe(s, start) - visited) - {scope};
      SearchScopesExhaust(s, memo, start, Successors(s, memo, scope), member, marked);
      var after := SearchScopes(s, memo, start, Successors(s, memo, scope), member, marked).visited;
      assert IsExhausted(s, memo, scope, member, after);
    }
  }

  lemma {:induction false} SearchScopesExhaust(s: Snapshot, memo: Memo, start: string, scopes: seq<string>,
          member: string, visited: set<string>)
    requires forall q :: q in scopes ==> q in Universe(s, start)
    requires SearchScopes(s, memo, start, scopes, member, visited).found.None?
    ensures var r := SearchScopes(s, memo, start, scopes, member, visited);
      (forall q :: q in scopes ==> q in r.visited) && NewAreExhausted(s, memo, member, visited, r.visited)
    decreases |Universe(s, start) - visited|, 1 + |scopes|
  {
    hide IsExhausted, NewAreExhausted, Universe, SearchScope, Own, Successors;
    if scopes == [] {
      NothingExhausted(s, memo, member, visited);
    } else {
      var first := SearchScope(s, memo, start, scopes[0], member, visited);
      SearchScopeExhausts(s, memo, start, scopes[0], member, visited);
      ExhaustedGrows(s, memo, member, visited, first.visited);
      FewerLeft(Universe(s, start), visited, first.visited);
      SearchScopesExhaust(s, memo, start, scopes[1..], member, first.visited);
      ExhaustedTrans(s, memo, member, visited, first.visited,
          SearchScopes(s, memo, start, scopes, member, visited).visited);
      ExhaustedGrows(s, memo, member, first.visited, SearchScopes(s, memo, start, scopes, member, visited).visited);
      assert scopes == [scopes[0]] + scopes[1..];
    }
  }

  lemma ExhaustedGrows(s: Snapshot, memo: Memo, member: string, before: set<string>, after: set<string>)
    requires NewAreExhausted(s, memo, member, before, after)
    ensures before <= after
  {
  }

  lemma NothingExhausted(s: Snapshot, memo: Memo, member: string, visited: set<string>)
    ensures NewAreExhausted(s, memo, member, visited, visited)
  {
  }

  lemma {:induction false} RouteIsExhausted(s: Snapshot, memo: Memo, member: string, visited: set<string>,
          route: seq<string>)
    requires IsRoute(s, memo, route) && route[0] in visited && NewAreExhausted(s, memo, member, {}, visited)
    ensures route[|route| - 1] in visited && Own(s, route[|route| - 1], member).None?
    decreases |route|
  {
    hide Own, Successors;
    assert IsExhausted(s, memo, route[0], member, visited);
    if |route| > 1 {
      var rest := route[1..];
      forall k | 0 <= k < |rest| - 1 ensures rest[k + 1] in Successors(s, memo, rest[k]) {
        assert route[k + 1 + 1] in Successors(s, memo, route[k + 1]);
      }
      assert route[0 + 1] in Successors(s, memo, route[0]);
      RouteIsExhausted(s, memo, member, visited, rest);
    }
  }

  /** The search ends on every supertype graph; it finds nothing exactly when no reachable scope has the
      member visible and live, and what it finds belongs to a reachable scope. */
  lemma FindMemberIsComplete(s: Snapshot, memo: Memo, scope: string, member: string)
    ensures FindMember(s, memo, scope, member).None? <==>
            forall q :: Leads(s, memo, scope, q) ==> Own(s, q, member).None?
    ensures FindMember(s, memo, scope, member).Some? ==>
              FoundFrom(s, memo, scope, member, FindMember(s, memo, scope, member))
  {
    hide Own, Successors, SearchScope, NewAreExhausted;
    SearchScopeIsSound(s, memo, scope, scope, member, {});
    if FindMember(s, memo, scope, member).None? {
      SearchScopeExhausts(s, memo, scope, scope, member, {});
      var visited := SearchScope(s, memo, scope, scope, member, {}).visited;
      forall q | Leads(s, memo, scope, q) ensures Own(s, q, member).None? {
        var route :| IsRoute(s, memo, route) && route[0] == scope && route[|route| - 1] == q;
        RouteIsExhausted(s, memo, member, visited, route);
      }
    }
  }

  // ---------------------------------------------------------------------------------------------
  // The search as it runs
  // ---------------------------------------------------------------------------------------------

  /** The backward scan over the enclosing scopes. */
  method TryParents(s: Snapshot, startScope: string, name: string) returns (r: Option<IndexedSymbol>)
    ensures r == InParents(s, startScope, |startScope|, name)
  {
    var end := |startScope|;
    while end > 1
      invariant 0 <= end <= |startScope|
      invariant InParents(s, startScope, end, name) == InParents(s, startScope, |startScope|, name)
    {
      var depth, sepPos, i := 0, None, end;
      ghost var target := PreviousTop(startScope, end, 0);
      while i > 1 && sepPos.None?
        invariant 0 <= i <= end
        invariant if sepPos.Some? then target == sepPos else target == PreviousTop(startScope, i, depth)
      {
        i := i - 1;
        if startScope[i] == '>' {
          depth := depth + 1;
        } else if startScope[i] == '<' {
          depth := depth - 1;
        } else if startScope[i] == ':' && depth == 0 && startScope[i - 1] == ':' {
          sepPos := Some(i - 1);
        }
      }
      if sepPos.None? {
        return None;
      }
      var own := Own(s, startScope[..sepPos.value], name);
      if own.Some? {
        return own;
      }
      end := sepPos.value;
    }
    return None;
  }

  /** The recursion with its threaded set; supertypes are resolved one by one as they are reached. */
  method FindMemberInternal(s: Snapshot, memo: Memo, ghost start: string, scope: string, member: string,
          visited: set<string>)
    returns (found: Option<IndexedSymbol>, seen: set<string>)
    requires scope in Universe(s, start)
    ensures Outcome(found, seen) == SearchScope(s, memo, start, scope, member, visited)
    decreases |Universe(s, start) - visited|
  {
    hide Own, Resolve, InParents;
    if scope in visited {
      return None, visited;
    }
    seen := visited + {scope};
    assert Universe(s, start) - seen == (Universe(s, start) - visited) - {scope};
    found := Own(s, scope, member);
    if found.Some? {
      return;
    }
    ghost var goal := SearchScope(s, memo, start, scope, member, visited);
    var symbol := Find(s, scope);
    if symbol.None? {
      return;
    }
    var supertypes := symbol.value.supertypes;
    for i := 0 to |supertypes|
      invariant found.None? && visited + {scope} <= seen
      invariant SearchScopes(s, memo, start, SuperScopes(s, memo, scope, supertypes[i..]), member, seen) == goal
    {
      assert supertypes[i..][0] == supertypes[i] && supertypes[i..][1..] == supertypes[i + 1..];
      var super := Resolve(s, memo, scope, supertypes[i]);
      if super.None? {
        super := TryParents(s, scope, supertypes[i]);
      }
      assert super == SuperOf(s, memo, scope, supertypes[i]);
      if super.Some? {
        var next := super.value.qualifiedName;
        FewerLeft(Universe(s, start), visited + {scope}, seen);
        assert SuperScopes(s, memo, scope, supertypes[i..])[0] == next;
        assert SuperScopes(s, memo, scope, supertypes[i..])[1..] == SuperScopes(s, memo, scope, supertypes[i + 1..]);
        found, seen := FindMemberInternal(s, memo, start, next, member, seen);
        if found.Some? {
          return;
        }
      } else {
        assert SuperScopes(s, memo, scope, supertypes[i..]) == SuperScopes(s, memo, scope, supertypes[i + 1..]);
      }
    }
  }

  method FindMemberInScope(s: Snapshot, memo: Memo, scope: string, member: string)
          returns (found: Option<IndexedSymbol>)
    ensures found == FindMember(s, memo, scope, member)
  {
    var seen;
    found, seen := FindMemberInternal(s, memo, scope, scope, member, {});
  }
}
