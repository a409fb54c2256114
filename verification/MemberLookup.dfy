/** What the member search finds, told from the visibility maps, the name index and the meaning of supertypes. */
module MemberLookup {
  import opened Wrappers
  import opened IndexData
  import opened Scopes
  import opened Indexing
  import opened Resolver
  import opened Segments
  import opened NameLookup
  import opened ImportTargets
  import opened MemberSearch

  /** A scope's map shows the name, and what it shows is live. A definition that leads nowhere hides an import. */
  ghost predicate Gives(s: Snapshot, scope: string, name: string, x: IndexedSymbol) {
    exists q :: Shows(s.visibility, scope, name, q) && LeadsTo(s.index, q, x)
  }

  /** The first of the listed scopes that gives the name. */
  ghost predicate FirstGives(s: Snapshot, scopes: seq<string>, name: string, x: IndexedSymbol) {
    exists k :: 0 <= k < |scopes| && Gives(s, scopes[k], name, x) && NoneGivesBefore(s, scopes, name, k)
  }

  ghost predicate NoneGivesBefore(s: Snapshot, scopes: seq<string>, name: string, n: nat)
    requires n <= |scopes|
  {
    forall j, y :: 0 <= j < n ==> !Gives(s, scopes[j], name, y)
  }

  /** What a supertype means as seen from a scope: by resolution there, or else what the first scope on the way back
      that gives the name gives. */
  ghost predicate SuperMeans(s: Snapshot, memo: Memo, scope: string, supertype: string, x: IndexedSymbol) {
    || Means(s, memo, scope, supertype, x)
    || ((forall y :: !Means(s, memo, scope, supertype, y))
          && FirstGives(s, VisitedBackward(scope, |scope|), supertype, x))
  }

  /** One of the supertypes of the scope's symbol means the other scope. */
  ghost predicate StepsTo(s: Snapshot, memo: Memo, scope: string, next: string) {
    exists owner, j, y :: LeadsTo(s.index, scope, owner) && 0 <= j < |owner.supertypes|
      && SuperMeans(s, memo, scope, owner.supertypes[j], y) && y.qualifiedName == next
  }

  /** A way from scope to scope along supertypes. */
  ghost predicate IsWay(s: Snapshot, memo: Memo, way: seq<string>, scope: string) {
    way != [] && way[0] == scope && forall k :: 0 <= k < |way| - 1 ==> StepsTo(s, memo, way[k], way[k + 1])
  }

  // ---------------------------------------------------------------------------------------------
  // The parts
  // ---------------------------------------------------------------------------------------------

  lemma OwnIsGiven(s: Snapshot, scope: string, name: string, x: IndexedSymbol)
    ensures Own(s, scope, name) == Some(x) <==> Gives(s, scope, name, x)
  {
    hide LeadsTo, Resolver.Find, Shows;
    if scope in s.visibility {
      var q := s.visibility[scope].Lookup(name);
      forall p ensures q == Some(p) <==> Shows(s.visibility, scope, name, p) {
        LookupShows(s.visibility, scope, name, p);
      }
      if q.Some? {
        FindLeads(s, q.value, x);
      }
    } else {
      forall p ensures !Shows(s.visibility, scope, name, p) {
        UnknownShowsNothing(s.visibility, scope, name, p);
      }
    }
  }

  lemma NoneBeforeNext(s: Snapshot, scope: string, rest: seq<string>, name: string, n: nat)
    requires n <= |rest|
    ensures NoneGivesBefore(s, [scope] + rest, name, n + 1) <==>
              (forall y :: !Gives(s, scope, name, y)) && NoneGivesBefore(s, rest, name, n)
  {
    hide Gives;
    var all := [scope] + rest;
    assert all[0] == scope && forall k :: 0 <= k < |rest| ==> all[k + 1] == rest[k];
    if NoneGivesBefore(s, all, name, n + 1) {
      forall y ensures !Gives(s, scope, name, y) {
        assert !Gives(s, all[0], name, y);
      }
      forall j, y | 0 <= j < n ensures !Gives(s, rest[j], name, y) {
        assert !Gives(s, all[j + 1], name, y);
      }
    }
    if (forall y :: !Gives(s, scope, name, y)) && NoneGivesBefore(s, rest, name, n) {
      forall j, y | 0 <= j < n + 1 ensures !Gives(s, all[j], name, y) {
        if j > 0 {
          assert !Gives(s, rest[j - 1], name, y);
        }
      }
    }
  }

  lemma FirstGivesNext(s: Snapshot, scope: string, rest: seq<string>, name: string, x: IndexedSymbol)
    ensures FirstGives(s, [scope] + rest, name, x) <==>
      Gives(s, scope, name, x) || ((forall y :: !Gives(s, scope, name, y)) && FirstGives(s, rest, name, x))
  {
    hide Gives;
    var all := [scope] + rest;
    if FirstGives(s, all, name, x) {
      var k :| 0 <= k < |all| && Gives(s, all[k], name, x) && NoneGivesBefore(s, all, name, k);
      if k > 0 {
        NoneBeforeNext(s, scope, rest, name, k - 1);
        assert rest[k - 1] == all[k];
      }
    }
    if (forall y :: !Gives(s, scope, name, y)) && FirstGives(s, rest, name, x) {
      var k :| 0 <= k < |rest| && Gives(s, rest[k], name, x) && NoneGivesBefore(s, rest, name, k);
      NoneBeforeNext(s, scope, rest, name, k);
      assert all[k + 1] == rest[k];
    }
    if Gives(s, scope, name, x) {
      assert all[0] == scope && NoneGivesBefore(s, all, name, 0);
    }
  }

  lemma {:induction false} ParentsGiveFirst(s: Snapshot, scope: string, end: nat, name: string, x: IndexedSymbol)
    requires end <= |scope|
    ensures InParents(s, scope, end, name) == Some(x) <==> FirstGives(s, VisitedBackward(scope, end), name, x)
    decreases end
  {
    hide Own, Gives, FirstGives, PreviousTop;
    var previous := if end <= 1 then None else PreviousTop(scope, end, 0);
    if previous.Some? {
      var parent := scope[..previous.value];
      ParentsGiveFirst(s, scope, previous.value, name, x);
      FirstGivesNext(s, parent, VisitedBackward(scope, previous.value), name, x);
      forall y ensures Own(s, parent, name) == Some(y) <==> Gives(s, parent, name, y) {
        OwnIsGiven(s, parent, name, y);
      }
      assert Own(s, parent, name).Some? ==> Gives(s, parent, name, Own(s, parent, name).value);
    } else {
      NoneGives(s, name, x);
    }
  }

  lemma NoneGives(s: Snapshot, name: string, x: IndexedSymbol)
    ensures !FirstGives(s, [], name, x)
  {
  }

  lemma SuperIsMeant(s: Snapshot, memo: Memo, scope: string, supertype: string, x: IndexedSymbol)
    ensures SuperOf(s, memo, scope, supertype) == Some(x) <==> SuperMeans(s, memo, scope, supertype, x)
  {
    hide Resolve, Means, InParents, FirstGives, VisitedBackward;
    forall y ensures Resolve(s, memo, scope, supertype) == Some(y) <==> Means(s, memo, scope, supertype, y) {
      ResolveMeans(s, memo, scope, supertype, y);
    }
    var resolved := Resolve(s, memo, scope, supertype);
    assert resolved.Some? ==> Means(s, memo, scope, supertype, resolved.value);
    ParentsGiveFirst(s, scope, |scope|, supertype, x);
  }

  lemma {:induction false} SupersAreMeant(s: Snapshot, memo: Memo, scope: string, supertypes: seq<string>, next: string)
    ensures next in SuperScopes(s, memo, scope, supertypes) <==>
      exists j, y :: 0 <= j < |supertypes| && SuperMeans(s, memo, scope, supertypes[j], y) && y.qualifiedName == next
  {
    hide SuperOf, SuperMeans;
    if supertypes != [] {
      SupersAreMeant(s, memo, scope, supertypes[1..], next);
      var found := SuperOf(s, memo, scope, supertypes[0]);
      forall y ensures found == Some(y) <==> SuperMeans(s, memo, scope, supertypes[0], y) {
        SuperIsMeant(s, memo, scope, supertypes[0], y);
      }
      assert found.Some? ==> SuperMeans(s, memo, scope, supertypes[0], found.value);
      assert forall j :: 1 <= j < |supertypes| ==> supertypes[j] == supertypes[1..][j - 1];
      assert forall j :: 0 <= j < |supertypes[1..]| ==> supertypes[1..][j] == supertypes[j + 1];
    }
  }

  lemma SuccessorIsStep(s: Snapshot, memo: Memo, scope: string, next: string)
    ensures next in Successors(s, memo, scope) <==> StepsTo(s, memo, scope, next)
  {
    hide SuperMeans, SuperScopes, LeadsTo, Resolver.Find;
    var symbol := Resolver.Find(s, scope);
    forall x ensures symbol == Some(x) <==> LeadsTo(s.index, scope, x) {
      FindLeads(s, scope, x);
    }
    if symbol.Some? {
      SupersAreMeant(s, memo, scope, symbol.value.supertypes, next);
      assert LeadsTo(s.index, scope, symbol.value);
    }
  }

  lemma WayIsRoute(s: Snapshot, memo: Memo, way: seq<string>, scope: string)
    ensures IsWay(s, memo, way, scope) <==> IsRoute(s, memo, way) && way[0] == scope
  {
    hide StepsTo, Successors;
    forall k | 0 <= k < |way| - 1
      ensures way[k + 1] in Successors(s, memo, way[k]) <==> StepsTo(s, memo, way[k], way[k + 1])
    {
      SuccessorIsStep(s, memo, way[k], way[k + 1]);
    }
  }

  // ---------------------------------------------------------------------------------------------
  // The search
  // ---------------------------------------------------------------------------------------------

  /** A scope at the end of a way along supertypes gives the member. */
  ghost predicate CanFind(s: Snapshot, memo: Memo, scope: string, member: string, x: IndexedSymbol) {
    exists way :: IsWay(s, memo, way, scope) && Gives(s, way[|way| - 1], member, x)
  }

  /** The search finds nothing exactly when no way along supertypes ends at a scope that gives the member; what it finds
      is given at the end of such a way, and what the scope gives itself comes first. */
  lemma FindMemberIsGiven(s: Snapshot, memo: Memo, scope: string, member: string, x: IndexedSymbol)
    ensures FindMember(s, memo, scope, member) == None <==> forall y :: !CanFind(s, memo, scope, member, y)
    ensures FindMember(s, memo, scope, member) == Some(x) ==> CanFind(s, memo, scope, member, x)
    ensures Gives(s, scope, member, x) ==> FindMember(s, memo, scope, member) == Some(x)
  {
    hide Own, Gives, StepsTo, Successors, SearchScopes;
    FindMemberIsComplete(s, memo, scope, member);
    OwnIsGiven(s, scope, member, x);
    forall q, y ensures Own(s, q, member) == Some(y) <==> Gives(s, q, member, y) {
      OwnIsGiven(s, q, member, y);
    }
    var r := FindMember(s, memo, scope, member);
    if r == None {
      forall y ensures !CanFind(s, memo, scope, member, y) {
        NotGiven(s, memo, scope, member, y);
      }
    } else {
      assert FoundFrom(s, memo, scope, member, r);
      var q :| Leads(s, memo, scope, q) && Own(s, q, member) == r;
      var way :| IsRoute(s, memo, way) && way[0] == scope && way[|way| - 1] == q;
      WayIsRoute(s, memo, way, scope);
      assert CanFind(s, memo, scope, member, r.value);
    }
  }

  lemma LeadsAlong(s: Snapshot, memo: Memo, scope: string, way: seq<string>)
    requires IsRoute(s, memo, way) && way[0] == scope
    ensures Leads(s, memo, scope, way[|way| - 1])
  {
    hide Successors;
  }

  lemma NotGiven(s: Snapshot, memo: Memo, scope: string, member: string, y: IndexedSymbol)
    requires forall q :: Leads(s, memo, scope, q) ==> Own(s, q, member).None?
    ensures !CanFind(s, memo, scope, member, y)
  {
    hide Own, Gives, StepsTo, Successors;
    if CanFind(s, memo, scope, member, y) {
      var way :| IsWay(s, memo, way, scope) && Gives(s, way[|way| - 1], member, y);
      WayIsRoute(s, memo, way, scope);
      LeadsAlong(s, memo, scope, way);
      OwnIsGiven(s, way[|way| - 1], member, y);
    }
  }
}
