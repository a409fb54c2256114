/** The worklist over supertypes: what it finds, and that it misses nothing reachable. */
module InheritedSearch {
  import opened Wrappers
  import opened IndexData
  import opened Indexing
  import opened Resolver

  /** A chain of types from the start: each one a resolved supertype of the one before. */
  ghost predicate IsChain(s: Snapshot, memo: Memo, start: IndexedSymbol, chain: seq<IndexedSymbol>) {
    && chain != [] && chain[0] in StartTypes(s, memo, start)
    && forall k :: 0 <= k < |chain| - 1 ==> chain[k + 1] in Supers(s, chain[k])
  }

  ghost predicate Reaches(s: Snapshot, memo: Memo, start: IndexedSymbol, x: IndexedSymbol) {
    exists chain :: IsChain(s, memo, start, chain) && chain[|chain| - 1] == x
  }

  /** A reachable definition, other than the start itself, that has the member. */
  ghost predicate IsSource(s: Snapshot, memo: Memo, start: IndexedSymbol, x: IndexedSymbol, member: string) {
    Reaches(s, memo, start, x) && x.qualifiedName != start.qualifiedName && Provides(s, x, member)
  }

  lemma StartIsReached(s: Snapshot, memo: Memo, start: IndexedSymbol, x: IndexedSymbol)
    requires x in StartTypes(s, memo, start)
    ensures Reaches(s, memo, start, x)
  {
    hide StartTypes, Supers;
    assert IsChain(s, memo, start, [x]);
    assert [x][|[x]| - 1] == x;
  }

  lemma SuperIsReached(s: Snapshot, memo: Memo, start: IndexedSymbol, x: IndexedSymbol, y: IndexedSymbol)
    requires Reaches(s, memo, start, x) && y in Supers(s, x)
    ensures Reaches(s, memo, start, y)
  {
    hide StartTypes, Supers;
    var chain :| IsChain(s, memo, start, chain) && chain[|chain| - 1] == x;
    var longer := chain + [y];
    forall k | 0 <= k < |longer| - 1 ensures longer[k + 1] in Supers(s, longer[k]) {
      assert k < |chain| - 1 ==> chain[k + 1] in Supers(s, chain[k]);
    }
    assert IsChain(s, memo, start, longer) && longer[|longer| - 1] == y;
  }

  // ---------------------------------------------------------------------------------------------
  // Pushing
  // ---------------------------------------------------------------------------------------------

  /** The types on the stack have been marked, and none is there twice. */
  ghost predicate MarkedOnce(f: Frontier) {
    && (forall i :: 0 <= i < |f.stack| ==> f.stack[i].qualifiedName in f.visited)
    && (forall i, j :: 0 <= i < j < |f.stack| ==> f.stack[i].qualifiedName != f.stack[j].qualifiedName)
  }

  /** What pushing a list does: the stack grows at its end by members of the list that were not marked. */
  ghost predicate Pushes(f: Frontier, list: seq<IndexedSymbol>, r: Frontier) {
    && f.stack <= r.stack && f.visited <= r.visited
    && (forall i :: |f.stack| <= i < |r.stack| ==> r.stack[i] in list && r.stack[i].qualifiedName !in f.visited)
    && (forall q :: q in r.visited <==> q in f.visited || IsNamed(list, q))
    && (forall q :: q in r.visited && q !in f.visited ==> IsOn(r.stack, q))
  }

  ghost predicate IsNamed(list: seq<IndexedSymbol>, q: string) {
    exists k :: 0 <= k < |list| && list[k].qualifiedName == q
  }

  ghost predicate IsOn(stack: seq<IndexedSymbol>, q: string) {
    exists k :: 0 <= k < |stack| && stack[k].qualifiedName == q
  }

  lemma IsNamedCons(list: seq<IndexedSymbol>, q: string)
    requires list != []
    ensures IsNamed(list, q) <==> list[0].qualifiedName == q || IsNamed(list[1..], q)
  {
    assert forall k :: 1 <= k < |list| ==> list[k] == list[1..][k - 1];
    assert forall k :: 0 <= k < |list[1..]| ==> list[1..][k] == list[k + 1];
  }

  lemma PrefixIsOn(a: seq<IndexedSymbol>, b: seq<IndexedSymbol>, q: string)
    requires a <= b && IsOn(a, q)
    ensures IsOn(b, q)
  {
    var k :| 0 <= k < |a| && a[k].qualifiedName == q;
    assert b[k] == a[k];
  }

  /** Marking one new type and pushing it. */
  lemma PushOneMarked(f: Frontier, x: IndexedSymbol)
    requires MarkedOnce(f) && x.qualifiedName !in f.visited
    ensures MarkedOnce(Frontier(f.visited + {x.qualifiedName}, f.stack + [x]))
  {
  }

  lemma PushOnePushes(f: Frontier, list: seq<IndexedSymbol>, g: Frontier, r: Frontier)
    requires list != [] && g == (if list[0].qualifiedName in f.visited then f
                                 else Frontier(f.visited + {list[0].qualifiedName}, f.stack + [list[0]]))
    requires Pushes(g, list[1..], r)
    ensures Pushes(f, list, r)
  {
    hide IsNamed, IsOn;
    forall q ensures q in r.visited <==> q in f.visited || IsNamed(list, q) {
      IsNamedCons(list, q);
    }
    if g != f {
      assert IsOn(g.stack, list[0].qualifiedName) by {
        LastIsOn(f.stack, list[0]);
      }
      PrefixIsOn(g.stack, r.stack, list[0].qualifiedName);
    }
  }

  lemma LastIsOn(stack: seq<IndexedSymbol>, x: IndexedSymbol)
    ensures IsOn(stack + [x], x.qualifiedName)
  {
    assert (stack + [x])[|stack|] == x;
  }

  lemma {:induction false} PushNewPushes(f: Frontier, list: seq<IndexedSymbol>)
    ensures Pushes(f, list, PushNew(f, list))
    ensures MarkedOnce(f) ==> MarkedOnce(PushNew(f, list))
    decreases |list|
  {
    hide Pushes, MarkedOnce;
    if list == [] {
      NothingPushed(f);
    } else {
      var x := list[0];
      var g := if x.qualifiedName in f.visited then f else Frontier(f.visited + {x.qualifiedName}, f.stack + [x]);
      PushNewPushes(g, list[1..]);
      PushOnePushes(f, list, g, PushNew(f, list));
      if MarkedOnce(f) && g != f {
        PushOneMarked(f, x);
      }
    }
  }

  lemma NothingPushed(f: Frontier)
    ensures Pushes(f, [], f)
  {
  }

  // ---------------------------------------------------------------------------------------------
  // Soundness
  // ---------------------------------------------------------------------------------------------

  /** Everything on the stack can be reached and is not the start, which is marked from the beginning. */
  ghost predicate StackReached(s: Snapshot, memo: Memo, start: IndexedSymbol, f: Frontier) {
    && start.qualifiedName in f.visited
    && forall i :: 0 <= i < |f.stack| ==>
          Reaches(s, memo, start, f.stack[i]) && f.stack[i].qualifiedName != start.qualifiedName
  }

  lemma PushedAreReached(s: Snapshot, memo: Memo, start: IndexedSymbol, f: Frontier, x: IndexedSymbol)
    requires StackReached(s, memo, start, f) && Reaches(s, memo, start, x)
    ensures StackReached(s, memo, start, PushNew(f, Supers(s, x)))
  {
    hide Reaches, Supers;
    var r := PushNew(f, Supers(s, x));
    PushNewPushes(f, Supers(s, x));
    forall i | 0 <= i < |r.stack|
      ensures Reaches(s, memo, start, r.stack[i]) && r.stack[i].qualifiedName != start.qualifiedName
    {
      if i >= |f.stack| {
        SuperIsReached(s, memo, start, x, r.stack[i]);
      } else {
        assert r.stack[i] == f.stack[i];
      }
    }
  }

  lemma {:induction false} SearchIsSound(s: Snapshot, memo: Memo, start: IndexedSymbol, f: Frontier, member: string)
    requires StackReached(s, memo, start, f)
    ensures Search(s, f, member).Some? ==>
      exists x :: IsSource(s, memo, start, x, member) && Search(s, f, member) == MemberOf(s, x, member)
    decreases Work(s, f)
  {
    hide Reaches, Supers, PushNew, Work, Provides, MemberOf;
    if f.stack != [] {
      var current := f.stack[|f.stack| - 1];
      var rest := Frontier(f.visited, f.stack[..|f.stack| - 1]);
      if Provides(s, current, member) {
        assert IsSource(s, memo, start, current, member);
      } else {
        PushNewWork(s, rest, Supers(s, current));
        PoppedWork(s, f);
        assert StackReached(s, memo, start, rest);
        PushedAreReached(s, memo, start, rest, current);
        SearchIsSound(s, memo, start, PushNew(rest, Supers(s, current)), member);
      }
    }
  }

  // ---------------------------------------------------------------------------------------------
  // Completeness
  // ---------------------------------------------------------------------------------------------

  /** A type that has been dealt with: it does not provide the member and its supertypes are all marked. */
  ghost predicate IsDone(s: Snapshot, visited: set<string>, x: IndexedSymbol, member: string) {
    !Provides(s, x, member) && forall y :: y in Supers(s, x) ==> y.qualifiedName in visited
  }

  /** Every marked live type other than the start is on the stack or has been dealt with. */
  ghost predicate Covered(s: Snapshot, start: IndexedSymbol, f: Frontier, member: string) {
    forall x :: IsLive(s, x) && IsPopped(f, start, x.qualifiedName) ==> IsDone(s, f.visited, x, member)
  }

  ghost predicate IsPopped(f: Frontier, start: IndexedSymbol, q: string) {
    q in f.visited && q != start.qualifiedName && !IsOn(f.stack, q)
  }

  lemma DoneStays(s: Snapshot, before: set<string>, after: set<string>, x: IndexedSymbol, member: string)
    requires IsDone(s, before, x, member) && before <= after
    ensures IsDone(s, after, x, member)
  {
  }

  lemma LiveIsUnique(s: Snapshot, x: IndexedSymbol, y: IndexedSymbol)
    requires IsLive(s, x) && IsLive(s, y) && x.qualifiedName == y.qualifiedName
    ensures x == y
  {
  }

  lemma NotOnPopped(stack: seq<IndexedSymbol>, q: string)
    requires stack != []
    ensures IsOn(stack, q) <==> IsOn(stack[..|stack| - 1], q) || stack[|stack| - 1].qualifiedName == q
  {
    assert forall k :: 0 <= k < |stack| - 1 ==> stack[..|stack| - 1][k] == stack[k];
  }

  /** One round that does not answer keeps the coverage. */
  lemma RoundKeepsCoverage(s: Snapshot, start: IndexedSymbol, f: Frontier, member: string)
    requires f.stack != [] && Covered(s, start, f, member) && !Provides(s, f.stack[|f.stack| - 1], member)
    requires IsLive(s, f.stack[|f.stack| - 1])
    ensures var current := f.stack[|f.stack| - 1];
      Covered(s, start, PushNew(Frontier(f.visited, f.stack[..|f.stack| - 1]), Supers(s, current)), member)
  {
    hide Provides, Supers, IsLive, IsOn, IsNamed;
    var current := f.stack[|f.stack| - 1];
    var rest := Frontier(f.visited, f.stack[..|f.stack| - 1]);
    var r := PushNew(rest, Supers(s, current));
    PushNewPushes(rest, Supers(s, current));
    forall x | IsLive(s, x) && IsPopped(r, start, x.qualifiedName)
      ensures IsDone(s, r.visited, x, member)
    {
      NotOnPopped(f.stack, x.qualifiedName);
      if IsOn(rest.stack, x.qualifiedName) {
        PrefixIsOn(rest.stack, r.stack, x.qualifiedName);
      }
      if x.qualifiedName == current.qualifiedName {
        LiveIsUnique(s, x, current);
        SupersAreMarked(s, current, r);
      } else {
        DoneStays(s, f.visited, r.visited, x, member);
      }
    }
  }

  lemma SupersAreMarked(s: Snapshot, x: IndexedSymbol, r: Frontier)
    requires forall q :: IsNamed(Supers(s, x), q) ==> q in r.visited
    ensures forall y :: y in Supers(s, x) ==> y.qualifiedName in r.visited
  {
    hide Supers;
    forall y | y in Supers(s, x) ensures y.qualifiedName in r.visited {
      var k :| 0 <= k < |Supers(s, x)| && Supers(s, x)[k] == y;
      assert IsNamed(Supers(s, x), y.qualifiedName);
    }
  }

  ghost predicate StackLive(s: Snapshot, f: Frontier) {
    forall i :: 0 <= i < |f.stack| ==> IsLive(s, f.stack[i])
  }

  lemma PushedAreLive(s: Snapshot, f: Frontier, list: seq<IndexedSymbol>)
    requires StackLive(s, f) && AllLive(s, list)
    ensures StackLive(s, PushNew(f, list))
  {
    hide IsLive;
    PushNewPushes(f, list);
    var r := PushNew(f, list);
    forall i | 0 <= i < |r.stack| ensures IsLive(s, r.stack[i]) {
      assert i < |f.stack| ==> r.stack[i] == f.stack[i];
    }
  }

  /** A search that ends without an answer has marked a set that is closed under supertypes and free of providers. */
  lemma {:induction false} SearchCloses(s: Snapshot, start: IndexedSymbol, f: Frontier, member: string)
          returns (visited: set<string>)
    requires Keyed(s) && StackLive(s, f) && Covered(s, start, f, member) && Search(s, f, member).None?
    ensures f.visited <= visited && Covered(s, start, Frontier(visited, []), member)
    decreases Work(s, f)
  {
    hide Keyed, Covered, Provides, Supers, PushNew, Work, IsLive, MemberOf;
    if f.stack == [] {
      visited := f.visited;
      assert Frontier(visited, []) == f;
    } else {
      var current := f.stack[|f.stack| - 1];
      var rest := Frontier(f.visited, f.stack[..|f.stack| - 1]);
      var next := PushNew(rest, Supers(s, current));
      PushNewWork(s, rest, Supers(s, current));
      PoppedWork(s, f);
      ProviderAnswers(s, f, member);
      RoundKeepsCoverage(s, start, f, member);
      SupersAreLive(s, map[], current);
      PushedAreLive(s, rest, Supers(s, current));
      visited := SearchCloses(s, start, next, member);
    }
  }

  lemma ProviderAnswers(s: Snapshot, f: Frontier, member: string)
    requires f.stack != [] && Search(s, f, member).None?
    ensures var current := f.stack[|f.stack| - 1];
      && !Provides(s, current, member)
      && Search(s, PushNew(Frontier(f.visited, f.stack[..|f.stack| - 1]), Supers(s, current)), member).None?
  {
    hide Supers, PushNew, Work;
  }

  /** Everything reachable lies in a closed set that holds the start types. */
  lemma {:induction false} ReachedIsVisited(s: Snapshot, memo: Memo, start: IndexedSymbol, visited: set<string>,
          member: string, chain: seq<IndexedSymbol>)
    requires Keyed(s) && IsLive(s, start) && IsChain(s, memo, start, chain)
    requires Covered(s, start, Frontier(visited, []), member)
    requires forall x :: x in StartTypes(s, memo, start) ==> x.qualifiedName in visited
    ensures chain[|chain| - 1].qualifiedName in visited && IsLive(s, chain[|chain| - 1])
    decreases |chain|
  {
    hide Keyed, Provides, IsLive;
    var n := |chain| - 1;
    if n == 0 {
      SupersAreLive(s, memo, start);
    } else {
      var before := chain[..n];
      forall k | 0 <= k < |before| - 1 ensures before[k + 1] in Supers(s, before[k]) {
        assert chain[k + 1] in Supers(s, chain[k]);
      }
      ReachedIsVisited(s, memo, start, visited, member, before);
      var x := chain[n - 1];
      assert before[|before| - 1] == x && chain[n] in Supers(s, x);
      SupersAreLive(s, memo, x);
      if x.qualifiedName == start.qualifiedName {
        LiveIsUnique(s, x, start);
        assert chain[n] in StartTypes(s, memo, start);
      } else {
        assert IsPopped(Frontier(visited, []), start, x.qualifiedName);
        assert IsDone(s, visited, x, member);
      }
    }
  }

  lemma StartIsCovered(s: Snapshot, memo: Memo, start: IndexedSymbol, member: string)
    requires Keyed(s)
    ensures var f := StartFrontier(s, memo, start);
      && Covered(s, start, f, member) && StackLive(s, f) && StackReached(s, memo, start, f) && MarkedOnce(f)
      && forall x :: x in StartTypes(s, memo, start) ==> x.qualifiedName in f.visited
  {
    hide Keyed, Provides, Supers, StartTypes, IsLive, Reaches;
    var empty, types := Frontier({start.qualifiedName}, []), StartTypes(s, memo, start);
    var f := StartFrontier(s, memo, start);
    PushNewPushes(empty, types);
    SupersAreLive(s, memo, start);
    PushedAreLive(s, empty, types);
    forall i | 0 <= i < |f.stack|
      ensures Reaches(s, memo, start, f.stack[i]) && f.stack[i].qualifiedName != start.qualifiedName
    {
      StartIsReached(s, memo, start, f.stack[i]);
    }
    forall x | x in types ensures x.qualifiedName in f.visited {
      var k :| 0 <= k < |types| && types[k] == x;
      assert IsNamed(types, x.qualifiedName);
    }
  }

  lemma NothingMissed(s: Snapshot, memo: Memo, start: IndexedSymbol, member: string, x: IndexedSymbol)
    requires Keyed(s) && IsLive(s, start) && Inherited(s, memo, start, member).None?
    ensures !IsSource(s, memo, start, x, member)
  {
    hide Keyed, Supers, StartTypes, IsLive, Search, Provides;
    var f := StartFrontier(s, memo, start);
    StartIsCovered(s, memo, start, member);
    var visited := SearchCloses(s, start, f, member);
    if Reaches(s, memo, start, x) {
      var chain :| IsChain(s, memo, start, chain) && chain[|chain| - 1] == x;
      ReachedIsVisited(s, memo, start, visited, member, chain);
      assert x.qualifiedName != start.qualifiedName ==> IsPopped(Frontier(visited, []), start, x.qualifiedName);
    }
  }

  /** The search for an inherited member finds one exactly when some reachable definition other than the start
      has it, and what it returns is such a definition's member. */
  lemma InheritedIsComplete(s: Snapshot, memo: Memo, start: IndexedSymbol, member: string)
    requires Keyed(s) && IsLive(s, start)
    ensures Inherited(s, memo, start, member).Some? <==> exists x :: IsSource(s, memo, start, x, member)
    ensures Inherited(s, memo, start, member).Some? ==>
      exists x :: IsSource(s, memo, start, x, member) && Inherited(s, memo, start, member) == MemberOf(s, x, member)
  {
    hide Keyed, IsLive, Search, Reaches, Provides, MemberOf, StartFrontier, IsSource;
    StartIsCovered(s, memo, start, member);
    SearchIsSound(s, memo, start, StartFrontier(s, memo, start), member);
    if Inherited(s, memo, start, member).None? {
      forall x ensures !IsSource(s, memo, start, x, member) {
        NothingMissed(s, memo, start, member, x);
      }
    }
  }
}
