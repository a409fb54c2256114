/** Import processing as it runs: the recursive pass, and a log of what it did, when and for which import.
    The log replays to the maps, so it says all that the pass does, on any import graph. */
module ImportRuns {
  import opened Wrappers
  import opened ElementKinds
  import opened IndexData
  import opened Names
  import opened Imports

  /** A wildcard import's pair is taken up; a package is marked; a taken-up target's names are copied; the one
      name of a single import is added. */
  datatype Event =
    | Visits(scope: string, imp: IndexedSymbol, target: string)
    | Marks(package: string)
    | Takes(scope: string, imp: IndexedSymbol, target: string)
    | TakesOne(scope: string, imp: IndexedSymbol, target: string)

  function PairOf(e: Event): set<(string, string)> {
    match e
    case Visits(scope, _, target) => {(scope, target)}
    case Marks(package) => {(package, MARKER)}
    case _ => {}
  }

  function VisitedBy(log: seq<Event>): set<(string, string)> {
    if log == [] then {} else VisitedBy(log[..|log| - 1]) + PairOf(log[|log| - 1])
  }

  function AfterEvent(ctx: ImportContext, maps: Maps, e: Event): Maps {
    match e
    case Takes(scope, imp, target) => if scope in maps then AfterTakingAll(ctx, maps, scope, imp, target) else maps
    case TakesOne(scope, imp, target) => AfterTakingOne(maps, scope, imp, target)
    case _ => maps
  }

  /** The maps that a log leads to. */
  function Replay(ctx: ImportContext, original: Maps, log: seq<Event>): Maps {
    if log == [] then original else AfterEvent(ctx, Replay(ctx, original, log[..|log| - 1]), log[|log| - 1])
  }

  /** What an import's target is resolved to when the log has come this far. */
  function TargetAt(ctx: ImportContext, original: Maps, log: seq<Event>, scope: string, imp: IndexedSymbol): string {
    ResolveImportTarget(ctx, Replay(ctx, original, log), scope, ImportTarget(imp))
  }

  function PackageOf(imp: IndexedSymbol): Option<string> {
    var split := RSplitOnce(ImportTarget(imp));
    if split.Some? then Some(split.value.0) else None
  }

  // ---------------------------------------------------------------------------------------------
  // What a log of the pass is like
  // ---------------------------------------------------------------------------------------------

  /** An import of a scope has been dealt with: at some moment its target was resolved, and that very pair has
      been visited, or that very name has been added. */
  ghost predicate DealtWith(ctx: ImportContext, original: Maps, log: seq<Event>, scope: string, imp: IndexedSymbol) {
    if TakesAll(imp) then
      exists k: nat :: k <= |log| && (scope, TargetAt(ctx, original, log[..k], scope, imp)) in VisitedBy(log)
    else
      exists k: nat :: k < |log| && log[k] == TakesOne(scope, imp, TargetAt(ctx, original, log[..k], scope, imp))
  }

  ghost predicate AllDealtWith(ctx: ImportContext, original: Maps, log: seq<Event>, scope: string) {
    forall imp :: imp in ImportsOf(ctx, scope) ==> DealtWith(ctx, original, log, scope, imp)
  }

  /** An event happens for a reason: a pair is visited once, by an import that resolves to it at that moment; its
      target is taken once, by the same import, after the target's own imports have been dealt with; a single
      name is added from what its import resolves to, after the import's package has been marked, once. */
  ghost predicate Fits(ctx: ImportContext, original: Maps, before: seq<Event>, e: Event) {
    match e
    case Visits(scope, imp, target) =>
      && imp in ImportsOf(ctx, scope) && TakesAll(imp)
      && target == TargetAt(ctx, original, before, scope, imp) && (scope, target) !in VisitedBy(before)
    case Marks(package) => IsPackage(ctx, package) && (package, MARKER) !in VisitedBy(before)
    case Takes(scope, imp, target) =>
      && Visits(scope, imp, target) in before && !TakenBy(before, scope, target)
      && AllDealtWith(ctx, original, before, target)
    case TakesOne(scope, imp, target) =>
      && imp in ImportsOf(ctx, scope) && !TakesAll(imp) && target == TargetAt(ctx, original, before, scope, imp)
      && (PackageOf(imp).Some? ==> (PackageOf(imp).value, MARKER) in VisitedBy(before))
  }

  /** A single import names something inside the package. */
  predicate IsPackage(ctx: ImportContext, package: string) {
    exists imp :: imp in ctx.symbols && imp.kind == SymImport && !TakesAll(imp) && PackageOf(imp) == Some(package)
  }

  predicate TakenBy(log: seq<Event>, scope: string, target: string) {
    exists k :: 0 <= k < |log| && log[k].Takes? && log[k].scope == scope && log[k].target == target
  }

  ghost predicate Genuine(ctx: ImportContext, original: Maps, log: seq<Event>) {
    forall k :: 0 <= k < |log| ==> Fits(ctx, original, log[..k], log[k])
  }

  /** From `start` on, what was begun has been finished, and only what was begun: every visited pair has been
      taken, every marked package's imports have been dealt with, and nothing else has been taken. */
  ghost predicate Finished(ctx: ImportContext, original: Maps, log: seq<Event>, start: nat) {
    && start <= |log|
    && (forall k :: start <= k < |log| && log[k].Visits? ==> Takes(log[k].scope, log[k].imp, log[k].target) in log)
    && (forall k :: start <= k < |log| && log[k].Marks? ==> AllDealtWith(ctx, original, log, log[k].package))
    && (forall k :: start <= k < |log| && log[k].Takes? ==>
          Visits(log[k].scope, log[k].imp, log[k].target) in log[start..])
  }

  // ---------------------------------------------------------------------------------------------
  // Longer logs
  // ---------------------------------------------------------------------------------------------

  lemma {:induction false} VisitedGrows(log: seq<Event>, k: nat)
    requires k <= |log|
    ensures VisitedBy(log[..k]) <= VisitedBy(log)
  {
    if k < |log| {
      VisitedGrows(log[..|log| - 1], k);
      assert log[..|log| - 1][..k] == log[..k];
    } else {
      assert log[..k] == log;
    }
  }

  lemma VisitedSnoc(log: seq<Event>, e: Event)
    ensures VisitedBy(log + [e]) == VisitedBy(log) + PairOf(e)
  {
    assert (log + [e])[..|log|] == log;
  }

  lemma ReplaySnoc(ctx: ImportContext, original: Maps, log: seq<Event>, e: Event)
    ensures Replay(ctx, original, log + [e]) == AfterEvent(ctx, Replay(ctx, original, log), e)
  {
    assert (log + [e])[..|log|] == log;
  }

  lemma EventExtends(ctx: ImportContext, maps: Maps, e: Event)
    ensures Extends(maps, AfterEvent(ctx, maps, e))
  {
    hide AfterTakingAll, AfterTakingOne, Complete;
    match e
    case Takes(scope, imp, target) =>
      if scope in maps {
        TakingAllCompletes(ctx, maps, scope, imp, target);
      }
    case TakesOne(scope, imp, target) => TakingOneExtends(maps, scope, imp, target);
    case _ =>
  }

  /** As the log goes on, names are only added and direct definitions stay. */
  lemma {:induction false} ReplayExtends(ctx: ImportContext, original: Maps, log: seq<Event>, k: nat)
    requires k <= |log|
    ensures Extends(Replay(ctx, original, log[..k]), Replay(ctx, original, log))
  {
    hide AfterEvent, Extends;
    if k < |log| {
      var before := log[..|log| - 1];
      assert before[..k] == log[..k];
      ReplayExtends(ctx, original, before, k);
      EventExtends(ctx, Replay(ctx, original, before), log[|log| - 1]);
      ExtendsTrans(Replay(ctx, original, log[..k]), Replay(ctx, original, before), Replay(ctx, original, log));
    } else {
      assert log[..k] == log;
      ExtendsItself(Replay(ctx, original, log));
    }
  }

  lemma ExtendsItself(maps: Maps)
    ensures Extends(maps, maps)
  {
  }

  lemma DealtWithStays(ctx: ImportContext, original: Maps, log: seq<Event>, later: seq<Event>, scope: string,
          imp: IndexedSymbol)
    requires log <= later && DealtWith(ctx, original, log, scope, imp)
    ensures DealtWith(ctx, original, later, scope, imp)
  {
    hide TargetAt, TakesAll, VisitedBy;
    assert later[..|log|] == log;
    assert forall k :: 0 <= k <= |log| ==> later[..k] == log[..k];
    VisitedGrows(later, |log|);
    if TakesAll(imp) {
      var k: nat :| k <= |log| && (scope, TargetAt(ctx, original, log[..k], scope, imp)) in VisitedBy(log);
      assert later[..k] == log[..k];
    } else {
      var k: nat :| k < |log| && log[k] == TakesOne(scope, imp, TargetAt(ctx, original, log[..k], scope, imp));
      assert later[..k] == log[..k] && later[k] == log[k];
    }
  }

  lemma AllDealtWithStays(ctx: ImportContext, original: Maps, log: seq<Event>, later: seq<Event>, scope: string)
    requires log <= later && AllDealtWith(ctx, original, log, scope)
    ensures AllDealtWith(ctx, original, later, scope)
  {
    hide DealtWith, ImportsOf;
    forall imp | imp in ImportsOf(ctx, scope) ensures DealtWith(ctx, original, later, scope, imp) {
      DealtWithStays(ctx, original, log, later, scope, imp);
    }
  }

  lemma GenuineSnoc(ctx: ImportContext, original: Maps, log: seq<Event>, e: Event)
    requires Genuine(ctx, original, log) && Fits(ctx, original, log, e)
    ensures Genuine(ctx, original, log + [e])
  {
    hide Fits;
    var later := log + [e];
    forall k | 0 <= k < |later| ensures Fits(ctx, original, later[..k], later[k]) {
      assert later[..k] == log[..k];
      assert k == |log| ==> log[..k] == log;
    }
  }

  lemma NothingStarted(ctx: ImportContext, original: Maps, log: seq<Event>)
    ensures Finished(ctx, original, log, |log|)
  {
  }

  /** Two stretches of the pass, one after the other. */
  lemma FinishedTrans(ctx: ImportContext, original: Maps, log: seq<Event>, later: seq<Event>, start: nat)
    requires log <= later && Finished(ctx, original, log, start) && Finished(ctx, original, later, |log|)
    ensures Finished(ctx, original, later, start)
  {
    hide AllDealtWith;
    forall k | start <= k < |later| && later[k].Visits?
      ensures Takes(later[k].scope, later[k].imp, later[k].target) in later
    {
      if k < |log| {
        assert log[k] == later[k];
        assert forall e :: e in log ==> e in later;
      }
    }
    forall k | start <= k < |later| && later[k].Marks? ensures AllDealtWith(ctx, original, later, later[k].package) {
      if k < |log| {
        assert log[k] == later[k];
        AllDealtWithStays(ctx, original, log, later, log[k].package);
      }
    }
    forall k | start <= k < |later| && later[k].Takes?
      ensures Visits(later[k].scope, later[k].imp, later[k].target) in later[start..]
    {
      var v := Visits(later[k].scope, later[k].imp, later[k].target);
      if k < |log| {
        assert log[k] == later[k];
        var j :| 0 <= j < |log[start..]| && log[start..][j] == v;
        assert later[start..][j] == v;
      } else {
        var j :| 0 <= j < |later[|log|..]| && later[|log|..][j] == v;
        assert later[start..][|log| - start + j] == v;
      }
    }
  }

  /** Adding the one name of a single import leaves nothing unfinished. */
  lemma FinishedWithOne(ctx: ImportContext, original: Maps, log: seq<Event>, e: Event)
    requires e.TakesOne?
    ensures Finished(ctx, original, log + [e], |log|)
  {
  }

  /** A package's mark is finished once its imports have been processed. */
  lemma MarkIsFinished(ctx: ImportContext, original: Maps, log: seq<Event>, later: seq<Event>, package: string)
    requires log + [Marks(package)] <= later && Finished(ctx, original, later, |log| + 1)
    requires AllDealtWith(ctx, original, later, package)
    ensures Finished(ctx, original, later, |log|)
  {
    hide AllDealtWith;
    assert later[|log|] == Marks(package);
    assert later[|log|..][1..] == later[|log| + 1..];
    assert forall v :: v in later[|log| + 1..] ==> v in later[|log|..];
  }

  /** A visit is finished once its target has been taken. */
  lemma VisitIsFinished(ctx: ImportContext, original: Maps, log: seq<Event>, later: seq<Event>, v: Event)
    requires v.Visits? && log + [v] <= later && Finished(ctx, original, later, |log| + 1)
    ensures Finished(ctx, original, later + [Takes(v.scope, v.imp, v.target)], |log|)
  {
    hide AllDealtWith;
    var e := Takes(v.scope, v.imp, v.target);
    var last := later + [e];
    assert last[|log|] == v && last[|later|] == e;
    forall k | |log| <= k < |last| && last[k].Visits?
      ensures Takes(last[k].scope, last[k].imp, last[k].target) in last
    {
      assert k != |log| ==> last[k] == later[k];
    }
    forall k | |log| <= k < |last| && last[k].Marks? ensures AllDealtWith(ctx, original, last, last[k].package) {
      assert last[k] == later[k];
      AllDealtWithStays(ctx, original, later, last, last[k].package);
    }
    forall k | |log| <= k < |last| && last[k].Takes?
      ensures Visits(last[k].scope, last[k].imp, last[k].target) in last[|log|..]
    {
      assert last[|log|..][0] == v;
      if k < |later| {
        assert last[k] == later[k];
        var w := Visits(last[k].scope, last[k].imp, last[k].target);
        var j :| 0 <= j < |later[|log| + 1..]| && later[|log| + 1..][j] == w;
        assert last[|log|..][j + 1] == w;
      }
    }
  }

  // ---------------------------------------------------------------------------------------------
  // Visits are unique
  // ---------------------------------------------------------------------------------------------

  lemma {:induction false} EventIsVisited(log: seq<Event>, k: nat)
    requires k < |log|
    ensures PairOf(log[k]) <= VisitedBy(log)
  {
    assert log[..k + 1][..k] == log[..k];
    VisitedGrows(log, k + 1);
  }

  /** No two visits have the same pair. */
  lemma VisitsDiffer(ctx: ImportContext, original: Maps, log: seq<Event>, i: nat, j: nat)
    requires Genuine(ctx, original, log) && i < j < |log| && log[i].Visits? && log[j].Visits?
    ensures log[i].scope != log[j].scope || log[i].target != log[j].target
  {
    hide TargetAt, VisitedBy, AllDealtWith;
    assert Fits(ctx, original, log[..j], log[j]);
    EventIsVisited(log[..j], i);
  }

  lemma VisitBefore(ctx: ImportContext, original: Maps, log: seq<Event>, k: nat) returns (i: nat)
    requires Genuine(ctx, original, log) && k < |log| && log[k].Takes?
    ensures i < k && log[i] == Visits(log[k].scope, log[k].imp, log[k].target)
  {
    hide TargetAt, VisitedBy, AllDealtWith, TakenBy;
    assert Fits(ctx, original, log[..k], log[k]);
    i :| 0 <= i < |log[..k]| && log[..k][i] == Visits(log[k].scope, log[k].imp, log[k].target);
  }

  /** What was visited first at some point has not been taken when that visit comes to take it. */
  lemma NotYetTaken(ctx: ImportContext, original: Maps, log: seq<Event>, start: nat)
    requires start < |log| && log[start].Visits? && Genuine(ctx, original, log)
    requires Finished(ctx, original, log, start + 1)
    ensures !TakenBy(log, log[start].scope, log[start].target)
  {
    hide Fits, VisitedBy, AllDealtWith;
    var scope, target := log[start].scope, log[start].target;
    forall k | 0 <= k < |log| && log[k].Takes? && log[k].target == target ensures log[k].scope != scope {
      var w := Visits(log[k].scope, log[k].imp, target);
      var i: nat;
      if k <= start {
        i := VisitBefore(ctx, original, log, k);
      } else {
        var j :| 0 <= j < |log[start + 1..]| && log[start + 1..][j] == w;
        i := start + 1 + j;
      }
      if i < start {
        VisitsDiffer(ctx, original, log, i, start);
      } else {
        VisitsDiffer(ctx, original, log, start, i);
      }
    }
  }

  // ---------------------------------------------------------------------------------------------
  // What a finished log says about the maps
  // ---------------------------------------------------------------------------------------------

  /** Every taken target is complete in the end, for the import that resolved to it, and what it re-exported when
      it was taken has reached the scope. */
  lemma TakenIsComplete(ctx: ImportContext, original: Maps, log: seq<Event>, k: nat)
    requires k < |log| && log[k].Takes? && log[k].scope in original
    ensures Complete(ctx, Replay(ctx, original, log), log[k].scope, log[k].target, log[k].imp)
    ensures ReexportsReach(Replay(ctx, original, log[..k]), Replay(ctx, original, log), log[k].scope, log[k].target,
              log[k].imp)
  {
    hide Complete, Extends, AfterTakingAll, ReexportsReach;
    var before, e := log[..k], log[k];
    ReplayExtends(ctx, original, before, 0);
    assert before[..0] == [];
    var maps := Replay(ctx, original, before);
    assert e.scope in maps by {
      ExtendsKeys(original, maps);
    }
    TakingAllCompletes(ctx, maps, e.scope, e.imp, e.target);
    TakingAllReexports(ctx, maps, e.scope, e.imp, e.target);
    assert log[..k + 1] == before + [e];
    ReplaySnoc(ctx, original, before, e);
    ReplayExtends(ctx, original, log, k + 1);
    CompleteStays(ctx, Replay(ctx, original, log[..k + 1]), Replay(ctx, original, log), e.scope, e.target, e.imp);
    ReexportsStay(maps, Replay(ctx, original, log[..k + 1]), Replay(ctx, original, log), e.scope, e.target, e.imp);
  }

  lemma ExtendsKeys(before: Maps, after: Maps)
    requires Extends(before, after)
    ensures before.Keys == after.Keys
  {
  }

  lemma {:induction false} VisitOf(log: seq<Event>, scope: string, target: string) returns (k: nat)
    requires (scope, target) in VisitedBy(log) && target != MARKER
    ensures k < |log| && log[k].Visits? && log[k].scope == scope && log[k].target == target
  {
    var last := log[|log| - 1];
    if (scope, target) in PairOf(last) {
      k := |log| - 1;
    } else {
      k := VisitOf(log[..|log| - 1], scope, target);
    }
  }

  /** After a finished pass, every visited pair was visited by an import of its scope that resolved to exactly
      its target at that moment, and was taken by it later, once the target's own imports had been dealt with. All
      that the import promises is visible in the end: the target's names, and what the target re-exported when it
      was taken. */
  lemma VisitedIsComplete(ctx: ImportContext, original: Maps, log: seq<Event>, scope: string, target: string)
          returns (k: nat, i: nat, imp: IndexedSymbol)
    requires Genuine(ctx, original, log) && Finished(ctx, original, log, 0) && scope in original
    requires (scope, target) in VisitedBy(log) && target != MARKER
    ensures k < |log| && imp in ImportsOf(ctx, scope) && TakesAll(imp)
    ensures target == TargetAt(ctx, original, log[..k], scope, imp)
    ensures Complete(ctx, Replay(ctx, original, log), scope, target, imp)
    ensures k < i < |log| && log[i] == Takes(scope, imp, target) && AllDealtWith(ctx, original, log[..i], target)
    ensures ReexportsReach(Replay(ctx, original, log[..i]), Replay(ctx, original, log), scope, target, imp)
  {
    hide TargetAt, Complete, TakesAll, AllDealtWith, VisitedBy, Replay, ImportsOf, ReexportsReach;
    k := VisitOf(log, scope, target);
    assert Fits(ctx, original, log[..k], log[k]);
    imp := log[k].imp;
    i :| i < |log| && log[i] == Takes(scope, imp, target);
    assert Fits(ctx, original, log[..i], log[i]);
    TakenIsComplete(ctx, original, log, i);
    var j := VisitBefore(ctx, original, log, i);
    if j < k {
      VisitsDiffer(ctx, original, log, j, k);
    } else if k < j {
      VisitsDiffer(ctx, original, log, k, j);
    }
  }

  /** After a finished pass, every wildcard import resolved at some moment to a target whose pair is visited; and
      all that an import of the scope promises that resolved to the same target is visible. Only the marker, written
      as a target, is set apart. */
  lemma WildcardIsTakenUp(ctx: ImportContext, original: Maps, log: seq<Event>, scope: string, imp: IndexedSymbol)
    returns (k: nat, target: string, i: nat, taker: IndexedSymbol)
    requires Genuine(ctx, original, log) && Finished(ctx, original, log, 0) && scope in original
    requires imp in ImportsOf(ctx, scope) && TakesAll(imp) && DealtWith(ctx, original, log, scope, imp)
    ensures k <= |log| && target == TargetAt(ctx, original, log[..k], scope, imp) && (scope, target) in VisitedBy(log)
    ensures target != MARKER ==>
      && taker in ImportsOf(ctx, scope) && TakesAll(taker) && i < |log| && log[i] == Takes(scope, taker, target)
      && Complete(ctx, Replay(ctx, original, log), scope, target, taker)
      && ReexportsReach(Replay(ctx, original, log[..i]), Replay(ctx, original, log), scope, target, taker)
  {
    hide TargetAt, Complete, TakesAll, Genuine, Finished, VisitedBy, Replay, ImportsOf, ReexportsReach;
    k :| k <= |log| && (scope, TargetAt(ctx, original, log[..k], scope, imp)) in VisitedBy(log);
    target, i, taker := TargetAt(ctx, original, log[..k], scope, imp), 0, imp;
    if target != MARKER {
      var j: nat;
      j, i, taker := VisitedIsComplete(ctx, original, log, scope, target);
    }
  }

  /** The name of a single import is visible in the end. */
  lemma SingleIsVisible(ctx: ImportContext, original: Maps, log: seq<Event>, scope: string, imp: IndexedSymbol)
    requires scope in original && !TakesAll(imp) && DealtWith(ctx, original, log, scope, imp)
    ensures scope in Replay(ctx, original, log)
    ensures IsVisible(Replay(ctx, original, log)[scope], LastSegment(ImportTarget(imp)))
  {
    hide Extends, AfterTakingOne, TargetAt, ImportTarget, LastSegment, TakesAll;
    var k: nat :| k < |log| && log[k] == TakesOne(scope, imp, TargetAt(ctx, original, log[..k], scope, imp));
    var before, e := log[..k], log[k];
    var maps := Replay(ctx, original, before);
    ReplayExtends(ctx, original, before, 0);
    assert before[..0] == [];
    ExtendsKeys(original, maps);
    TakingOneExtends(maps, scope, imp, e.target);
    ReplaySnoc(ctx, original, before, e);
    ReplayExtends(ctx, original, log, k + 1);
    assert log[..k + 1] == before + [e];
    assert Replay(ctx, original, log[..k + 1]) == AfterTakingOne(maps, scope, imp, e.target);
    ExtendsKeys(maps, AfterTakingOne(maps, scope, imp, e.target));
    VisibleStays(Replay(ctx, original, log[..k + 1]), Replay(ctx, original, log), scope,
        LastSegment(ImportTarget(imp)));
  }

  lemma VisibleStays(before: Maps, after: Maps, scope: string, name: string)
    requires Extends(before, after) && scope in before && IsVisible(before[scope], name)
    ensures scope in after && IsVisible(after[scope], name)
  {
    assert ExtendsAt(before[scope], after[scope]);
  }

  // ---------------------------------------------------------------------------------------------
  // Where imported names come from
  // ---------------------------------------------------------------------------------------------

  predicate HasPair(v: ScopeVisibility, name: string, q: string) {
    (name in v.directDefs && v.directDefs[name] == q) || (name in v.imports && v.imports[name] == q)
  }

  predicate IsTarget(log: seq<Event>, target: string) {
    exists k :: 0 <= k < |log| && log[k].Takes? && log[k].target == target
  }

  /** A pair of the scope's own first map, or of the first map of a target that was taken. */
  ghost predicate FromTarget(original: Maps, log: seq<Event>, scope: string, name: string, q: string) {
    exists t :: t in original && (t == scope || IsTarget(log, t)) && HasPair(original[t], name, q)
  }

  /** A descendant that a recursive import took with its target. */
  ghost predicate FromDescendant(ctx: ImportContext, log: seq<Event>, name: string, q: string) {
    exists k, j :: 0 <= k < |log| && 0 <= j < |ctx.symbols| && Descends(ctx, log[k], ctx.symbols[j]) &&
      ctx.symbols[j].name == name && ctx.symbols[j].qualifiedName == q
  }

  predicate Descends(ctx: ImportContext, e: Event, symbol: IndexedSymbol) {
    e.Takes? && IsRecursive(e.imp) && IsDescendant(symbol, e.target, ActiveFilters(ctx, e.scope, e.imp))
  }

  /** The last segment, as written or as resolved, of a single import that resolved to exactly `q`. */
  ghost predicate FromSingle(log: seq<Event>, name: string, q: string) {
    exists k :: 0 <= k < |log| && AddsName(log[k], name, q)
  }

  predicate AddsName(e: Event, name: string, q: string) {
    e.TakesOne? && e.target == q && (name == LastSegment(q) || name == LastSegment(ImportTarget(e.imp)))
  }

  ghost predicate Sourced(ctx: ImportContext, original: Maps, log: seq<Event>, scope: string, name: string, q: string) {
    FromTarget(original, log, scope, name, q) || FromDescendant(ctx, log, name, q) || FromSingle(log, name, q)
  }

  lemma SourcedStays(ctx: ImportContext, original: Maps, log: seq<Event>, e: Event, scope: string, name: string,
          q: string)
    requires Sourced(ctx, original, log, scope, name, q)
    ensures Sourced(ctx, original, log + [e], scope, name, q)
  {
    hide HasPair, Descends, AddsName;
    var later := log + [e];
    if FromTarget(original, log, scope, name, q) {
      var t :| t in original && (t == scope || IsTarget(log, t)) && HasPair(original[t], name, q);
      if IsTarget(log, t) {
        var k :| 0 <= k < |log| && log[k].Takes? && log[k].target == t;
        assert later[k] == log[k];
      }
    } else if FromDescendant(ctx, log, name, q) {
      var k, j :| 0 <= k < |log| && 0 <= j < |ctx.symbols| && Descends(ctx, log[k], ctx.symbols[j]) &&
        ctx.symbols[j].name == name && ctx.symbols[j].qualifiedName == q;
      assert later[k] == log[k];
    } else {
      var k :| 0 <= k < |log| && AddsName(log[k], name, q);
      assert later[k] == log[k];
    }
  }

  /** What a taken target hands on has the target's sources. */
  lemma HandedOn(ctx: ImportContext, original: Maps, log: seq<Event>, e: Event, name: string, q: string)
    requires e.Takes? && Sourced(ctx, original, log, e.target, name, q)
    ensures Sourced(ctx, original, log + [e], e.scope, name, q)
  {
    hide HasPair, Descends, AddsName;
    var later := log + [e];
    SourcedStays(ctx, original, log, e, e.target, name, q);
    assert later[|log|] == e;
    if FromTarget(original, later, e.target, name, q) {
      var t :| t in original && (t == e.target || IsTarget(later, t)) && HasPair(original[t], name, q);
      assert IsTarget(later, t);
    }
  }

  lemma CopiedSources(ctx: ImportContext, v: ScopeVisibility, targetName: string, target: ScopeVisibility,
          filters: seq<string>, isPublic: bool, n: string)
    requires n in Copied(ctx, v, targetName, target, filters, isPublic).imports
    ensures var q := Copied(ctx, v, targetName, target, filters, isPublic).imports[n];
      (n in v.imports && v.imports[n] == q) || HasPair(target, n, q)
  {
    hide Passes, FromReexport, WithReexports;
    var named := WithImports(WithImports(v, PassingDirects(ctx, target, filters)), ReexportedImports(target));
    WithReexportsExtends(named, [targetName] + target.publicReexports);
  }

  lemma {:induction false} DescendantSources(ctx: ImportContext, v: ScopeVisibility, target: string,
          filters: seq<string>, m: nat, n: string)
    requires m <= |ctx.symbols| && n in WithDescendants(ctx, v, target, filters, m).imports
    ensures var q := WithDescendants(ctx, v, target, filters, m).imports[n];
      || (n in v.imports && v.imports[n] == q)
      || exists j :: 0 <= j < m && IsDescendant(ctx.symbols[j], target, filters) && ctx.symbols[j].name == n
            && ctx.symbols[j].qualifiedName == q
  {
    hide IsDescendant;
    if m > 0 {
      var before := WithDescendants(ctx, v, target, filters, m - 1);
      if n in before.imports && before.imports[n] == WithDescendants(ctx, v, target, filters, m).imports[n] {
        DescendantSources(ctx, v, target, filters, m - 1, n);
      }
    }
  }

  lemma TakenSources(ctx: ImportContext, original: Maps, log: seq<Event>, maps: Maps, e: Event, n: string)
    requires e.Takes? && e.scope in maps && Extends(original, maps)
    requires forall s, m :: s in maps && m in maps[s].imports ==> Sourced(ctx, original, log, s, m, maps[s].imports[m])
    requires n in AfterTakingAll(ctx, maps, e.scope, e.imp, e.target)[e.scope].imports
    ensures Sourced(ctx, original, log + [e], e.scope, n,
              AfterTakingAll(ctx, maps, e.scope, e.imp, e.target)[e.scope].imports[n])
  {
    hide Copied, WithDescendants, IsDescendant, ActiveFilters, Sourced, Passes;
    var filters := ActiveFilters(ctx, e.scope, e.imp);
    var copied :=
        if e.target in maps then Copied(ctx, maps[e.scope], e.target, maps[e.target], filters, e.imp.isPublic)
            else maps[e.scope];
    var q := AfterTakingAll(ctx, maps, e.scope, e.imp, e.target)[e.scope].imports[n];
    if n in copied.imports && copied.imports[n] == q {
      if e.target in maps {
        CopiedSources(ctx, maps[e.scope], e.target, maps[e.target], filters, e.imp.isPublic, n);
      }
      if n in maps[e.scope].imports && maps[e.scope].imports[n] == q {
        SourcedStays(ctx, original, log, e, e.scope, n, q);
      } else {
        assert Sourced(ctx, original, log, e.target, n, q) by {
          PairIsSourced(ctx, original, log, maps, e.target, n, q);
        }
        HandedOn(ctx, original, log, e, n, q);
      }
    } else {
      DescendantSources(ctx, copied, e.target, filters, |ctx.symbols|, n);
      var j :| 0 <= j < |ctx.symbols| && IsDescendant(ctx.symbols[j], e.target, filters) &&
        ctx.symbols[j].name == n && ctx.symbols[j].qualifiedName == q;
      DescendantIsSourced(ctx, original, log, e, j);
    }
  }

  lemma DescendantIsSourced(ctx: ImportContext, original: Maps, log: seq<Event>, e: Event, j: nat)
    requires j < |ctx.symbols| && Descends(ctx, e, ctx.symbols[j])
    ensures Sourced(ctx, original, log + [e], e.scope, ctx.symbols[j].name, ctx.symbols[j].qualifiedName)
  {
    hide Descends, FromTarget, FromSingle;
    assert (log + [e])[|log|] == e;
  }

  lemma PairIsSourced(ctx: ImportContext, original: Maps, log: seq<Event>, maps: Maps, s: string, n: string, q: string)
    requires s in maps && Extends(original, maps) && HasPair(maps[s], n, q)
    requires forall m :: m in maps[s].imports ==> Sourced(ctx, original, log, s, m, maps[s].imports[m])
    ensures Sourced(ctx, original, log, s, n, q)
  {
    hide FromDescendant, FromSingle;
    assert ExtendsAt(original[s], maps[s]);
    if n in maps[s].directDefs && maps[s].directDefs[n] == q {
      assert HasPair(original[s], n, q);
    }
  }

  lemma SingleSources(ctx: ImportContext, original: Maps, log: seq<Event>, maps: Maps, e: Event, n: string)
    requires e.TakesOne? && e.scope in maps && n in AfterTakingOne(maps, e.scope, e.imp, e.target)[e.scope].imports
    requires forall m :: m in maps[e.scope].imports ==>
              Sourced(ctx, original, log, e.scope, m, maps[e.scope].imports[m])
    ensures Sourced(ctx, original, log + [e], e.scope, n,
              AfterTakingOne(maps, e.scope, e.imp, e.target)[e.scope].imports[n])
  {
    hide LastSegment, ImportTarget, FromTarget, FromDescendant;
    var q := AfterTakingOne(maps, e.scope, e.imp, e.target)[e.scope].imports[n];
    if n in maps[e.scope].imports && maps[e.scope].imports[n] == q {
      SourcedStays(ctx, original, log, e, e.scope, n, q);
    } else {
      assert (log + [e])[|log|] == e && AddsName(e, n, q);
    }
  }

  /** Every imported name has a source: it was there, was taken with a target, or is what a single import of it
      resolved to. */
  lemma {:induction false} ImportsAreSourced(ctx: ImportContext, original: Maps, log: seq<Event>, s: string, n: string)
    requires s in Replay(ctx, original, log) && n in Replay(ctx, original, log)[s].imports
    ensures Sourced(ctx, original, log, s, n, Replay(ctx, original, log)[s].imports[n])
    decreases |log|
  {
    hide Sourced, AfterTakingAll, AfterTakingOne;
    if log == [] {
      OriginalIsSourced(ctx, original, s, n);
    } else {
      var before, e := log[..|log| - 1], log[|log| - 1];
      assert before + [e] == log;
      var maps := Replay(ctx, original, before);
      ReplayExtends(ctx, original, before, 0);
      assert before[..0] == [];
      forall t, m | t in maps && m in maps[t].imports ensures Sourced(ctx, original, before, t, m, maps[t].imports[m]) {
        ImportsAreSourced(ctx, original, before, t, m);
      }
      if e.Takes? && e.scope == s && s in maps {
        TakenSources(ctx, original, before, maps, e, n);
      } else if e.TakesOne? && e.scope == s && s in maps {
        SingleSources(ctx, original, before, maps, e, n);
      } else {
        OtherScope(ctx, maps, e, s);
        SourcedStays(ctx, original, before, e, s, n, maps[s].imports[n]);
      }
    }
  }

  lemma OriginalIsSourced(ctx: ImportContext, original: Maps, s: string, n: string)
    requires s in original && n in original[s].imports
    ensures Sourced(ctx, original, [], s, n, original[s].imports[n])
  {
    assert HasPair(original[s], n, original[s].imports[n]);
  }

  /** An event touches its own scope's map only. */
  lemma OtherScope(ctx: ImportContext, maps: Maps, e: Event, s: string)
    requires s in AfterEvent(ctx, maps, e) && ((e.Takes? || e.TakesOne?) && s in maps ==> e.scope != s)
    ensures s in maps && AfterEvent(ctx, maps, e)[s] == maps[s]
  {
    hide Copied, LastSegment, ImportTarget, WithDescendants;
  }

  // ---------------------------------------------------------------------------------------------
  // The pass
  // ---------------------------------------------------------------------------------------------

  /** What the pass knows of its state at every moment. */
  ghost predicate Logged(ctx: ImportContext, original: Maps, names: set<string>, log: seq<Event>, maps: Maps,
          visited: set<(string, string)>) {
    && Genuine(ctx, original, log) && maps == Replay(ctx, original, log) && visited == VisitedBy(log)
    && Sane(ctx, original, names, maps)
  }

  lemma LoggedSnoc(ctx: ImportContext, original: Maps, names: set<string>, log: seq<Event>, maps: Maps,
          visited: set<(string, string)>, e: Event)
    requires Logged(ctx, original, names, log, maps, visited) && Fits(ctx, original, log, e)
    requires Sane(ctx, original, names, AfterEvent(ctx, maps, e))
    ensures Logged(ctx, original, names, log + [e], AfterEvent(ctx, maps, e), visited + PairOf(e))
  {
    hide Fits, Sane, AfterEvent, PairOf;
    GenuineSnoc(ctx, original, log, e);
    VisitedSnoc(log, e);
    ReplaySnoc(ctx, original, log, e);
  }

  lemma StartIsLogged(ctx: ImportContext, maps: Maps)
    requires forall scope :: ImportsOf(ctx, scope) != [] ==> scope in maps
    ensures Logged(ctx, maps, NamesOf(ctx, maps), [], maps, {})
  {
    hide NamesOf, ImportsOf, ImportTarget;
    NamesCover(ctx, maps);
  }

  class ImportPass {
    const ctx: ImportContext
    ghost const original: Maps
    ghost const names: set<string>
    var visibilityMap: Maps
    var visited: set<(string, string)>
    ghost var log: seq<Event>

    ghost predicate Valid()
      reads this
    {
      Logged(ctx, original, names, log, visibilityMap, visited)
    }

    ghost function Left(): nat
      reads this
    {
      |Pairs(ctx, names) - visited|
    }

    constructor (ctx: ImportContext, maps: Maps)
      requires forall scope :: ImportsOf(ctx, scope) != [] ==> scope in maps
      ensures Valid() && visibilityMap == maps && log == [] && this.ctx == ctx && original == maps
    {
      this.ctx, this.original, this.names := ctx, maps, NamesOf(ctx, maps);
      visibilityMap, visited, log := maps, {}, [];
      new;
      StartIsLogged(ctx, maps);
    }

    /** Processes a scope's imports, each target's own imports first. Ends on every import graph. */
    method ProcessImports(scope: string)
      requires Valid()
      modifies this
      decreases Left(), 2
      ensures Valid() && old(log) <= log && old(visited) <= visited
      ensures Finished(ctx, original, log, |old(log)|) && AllDealtWith(ctx, original, log, scope)
    {
      hide Logged, Finished, DealtWith, ImportsOf, Pairs;
      var imports := ImportsOf(ctx, scope);
      NothingStarted(ctx, original, log);
      for i := 0 to |imports|
        invariant Valid() && old(log) <= log && old(visited) <= visited
        invariant Finished(ctx, original, log, |old(log)|)
        invariant forall imp :: imp in imports[..i] ==> DealtWith(ctx, original, log, scope, imp)
      {
        ghost var before := log;
        PairsShrink(Pairs(ctx, names), old(visited), visited);
        ProcessImport(scope, imports[i]);
        FinishedTrans(ctx, original, before, log, |old(log)|);
        assert imports[..i + 1] == imports[..i] + [imports[i]];
        forall imp | imp in imports[..i] ensures DealtWith(ctx, original, log, scope, imp) {
          DealtWithStays(ctx, original, before, log, scope, imp);
        }
      }
      assert imports[..|imports|] == imports;
    }

    method ProcessImport(scope: string, imp: IndexedSymbol)
      requires Valid() && imp in ImportsOf(ctx, scope)
      modifies this
      decreases Left(), 1
      ensures Valid() && old(log) <= log && old(visited) <= visited
      ensures Finished(ctx, original, log, |old(log)|) && DealtWith(ctx, original, log, scope, imp)
    {
      hide Logged, Finished, DealtWith, ImportsOf, Pairs;
      if TakesAll(imp) {
        TakeAll(scope, imp);
      } else {
        ProcessParent(imp);
        ghost var before := log;
        TakeOne(scope, imp);
        FinishedTrans(ctx, original, before, log, |old(log)|);
      }
    }

    /** Before a single name is imported, its package is marked and the package's own imports are processed,
        unless it was marked already. */
    method ProcessParent(imp: IndexedSymbol)
      requires Valid() && imp in ctx.symbols && imp.kind == SymImport && !TakesAll(imp)
      modifies this
      decreases Left(), 0
      ensures Valid() && old(log) <= log && old(visited) <= visited && Finished(ctx, original, log, |old(log)|)
      ensures PackageOf(imp).Some? ==> (PackageOf(imp).value, MARKER) in visited
      ensures PackageOf(imp).Some? && (PackageOf(imp).value, MARKER) !in old(visited) ==>
        old(log) + [Marks(PackageOf(imp).value)] <= log && AllDealtWith(ctx, original, log, PackageOf(imp).value)
      ensures PackageOf(imp).None? || (PackageOf(imp).value, MARKER) in old(visited) ==> log == old(log)
    {
      hide Logged, Finished, AllDealtWith, Pairs;
      NothingStarted(ctx, original, log);
      var split := RSplitOnce(ImportTarget(imp));
      if split.Some? && (split.value.0, MARKER) !in visited {
        var marker := (split.value.0, MARKER);
        MarkerIsPair(ctx, names, imp);
        PairsShrink(Pairs(ctx, names), visited, visited + {marker});
        assert IsPackage(ctx, split.value.0);
        MarkFits(ctx, original, names, log, visibilityMap, visited, split.value.0);
        visited, log := visited + {marker}, log + [Marks(split.value.0)];
        ProcessImports(split.value.0);
        MarkIsFinished(ctx, original, old(log), log, split.value.0);
      }
    }

    /** A single name is added under the last segment of what it resolves to, and of how it is written. */
    method TakeOne(scope: string, imp: IndexedSymbol)
      requires Valid() && imp in ImportsOf(ctx, scope) && !TakesAll(imp)
      requires PackageOf(imp).Some? ==> (PackageOf(imp).value, MARKER) in visited
      modifies this
      ensures Valid() && visited == old(visited) && Finished(ctx, original, log, |old(log)|)
      ensures log ==
                old(log) + [TakesOne(scope, imp,
                    ResolveImportTarget(ctx, old(visibilityMap), scope, ImportTarget(imp)))]
      ensures DealtWith(ctx, original, log, scope, imp)
    {
      hide Logged, Finished, DealtWith, ResolveImportTarget, ImportTarget, AfterTakingOne, PackageOf;
      var target := ResolveImportTarget(ctx, visibilityMap, scope, ImportTarget(imp));
      OneFits(ctx, original, names, log, visibilityMap, visited, scope, imp, target);
      FinishedWithOne(ctx, original, log, TakesOne(scope, imp, target));
      visibilityMap, log := AfterTakingOne(visibilityMap, scope, imp, target), log + [TakesOne(scope, imp, target)];
    }

    /** A wildcard import: nothing if its pair has been visited, else the pair is visited, the target's own imports
        are processed, and then the target's names are copied under this import's filters. */
    method TakeAll(scope: string, imp: IndexedSymbol)
      requires Valid() && imp in ImportsOf(ctx, scope) && TakesAll(imp)
      modifies this
      decreases Left(), 0
      ensures Valid() && old(log) <= log && old(visited) <= visited
      ensures Finished(ctx, original, log, |old(log)|) && DealtWith(ctx, original, log, scope, imp)
      ensures var target := ResolveImportTarget(ctx, old(visibilityMap), scope, ImportTarget(imp));
        if (scope, target) in old(visited) then log == old(log)
        else
          && old(log) + [Visits(scope, imp, target)] < log && (scope, target) in visited
          && log[|log| - 1] == Takes(scope, imp, target) && AllDealtWith(ctx, original, log[..|log| - 1], target)
    {
      hide Logged, Finished, DealtWith, AllDealtWith, ResolveImportTarget, ImportTarget, Pairs, TakesAll,
           AfterTakingAll;
      var target := ResolveImportTarget(ctx, visibilityMap, scope, ImportTarget(imp));
      NothingStarted(ctx, original, log);
      var key := (scope, target);
      if key in visited {
        VisitedIsDealtWith(ctx, original, names, log, visibilityMap, visited, scope, imp);
        return;
      }
      ghost var visit := Visits(scope, imp, target);
      VisitFits(ctx, original, names, log, visibilityMap, visited, scope, imp, target);
      PairsShrink(Pairs(ctx, names), visited, visited + {key});
      visited, log := visited + {key}, log + [visit];
      ProcessImports(target);
      ghost var before := log;
      TakeFits(ctx, original, names, old(log), log, visibilityMap, visited, visit);
      VisitIsFinished(ctx, original, old(log), log, visit);
      visibilityMap, log := AfterTakingAll(ctx, visibilityMap, scope, imp, target), log + [Takes(scope, imp, target)];
      assert log[..|log| - 1] == before;
    }
  }

  // ---------------------------------------------------------------------------------------------
  // Each step of the pass is logged
  // ---------------------------------------------------------------------------------------------

  lemma MarkFits(ctx: ImportContext, original: Maps, names: set<string>, log: seq<Event>, maps: Maps,
          visited: set<(string, string)>, package: string)
    requires Logged(ctx, original, names, log, maps, visited) && IsPackage(ctx, package)
    requires (package, MARKER) !in visited
    ensures Logged(ctx, original, names, log + [Marks(package)], maps, visited + {(package, MARKER)})
  {
    hide Sane, Genuine, VisitedBy, Replay, IsPackage;
    LoggedSnoc(ctx, original, names, log, maps, visited, Marks(package));
  }

  lemma OneFits(ctx: ImportContext, original: Maps, names: set<string>, log: seq<Event>, maps: Maps,
          visited: set<(string, string)>, scope: string, imp: IndexedSymbol, target: string)
    requires Logged(ctx, original, names, log, maps, visited) && imp in ImportsOf(ctx, scope) && !TakesAll(imp)
    requires PackageOf(imp).Some? ==> (PackageOf(imp).value, MARKER) in visited
    requires target == ResolveImportTarget(ctx, maps, scope, ImportTarget(imp))
    ensures Logged(ctx, original, names, log + [TakesOne(scope, imp, target)], AfterTakingOne(maps, scope, imp, target),
              visited)
    ensures DealtWith(ctx, original, log + [TakesOne(scope, imp, target)], scope, imp)
  {
    hide Extends, Covers, Genuine, VisitedBy, Replay, ResolveImportTarget, ImportTarget, AfterTakingOne, PackageOf;
    var e := TakesOne(scope, imp, target);
    TargetIsPair(ctx, original, maps, names, scope, imp);
    TakingOneIsSane(ctx, original, names, maps, scope, imp, target);
    LoggedSnoc(ctx, original, names, log, maps, visited, e);
    assert (log + [e])[..|log|] == log && (log + [e])[|log|] == e;
  }

  lemma VisitFits(ctx: ImportContext, original: Maps, names: set<string>, log: seq<Event>, maps: Maps,
          visited: set<(string, string)>, scope: string, imp: IndexedSymbol, target: string)
    requires Logged(ctx, original, names, log, maps, visited) && imp in ImportsOf(ctx, scope) && TakesAll(imp)
    requires target == ResolveImportTarget(ctx, maps, scope, ImportTarget(imp)) && (scope, target) !in visited
    ensures Logged(ctx, original, names, log + [Visits(scope, imp, target)], maps, visited + {(scope, target)})
    ensures (scope, target) in Pairs(ctx, names) && scope in original
  {
    ExtendsKeys(original, maps);
    hide Extends, Covers, Genuine, VisitedBy, Replay, ResolveImportTarget, ImportTarget, Pairs;
    TargetIsPair(ctx, original, maps, names, scope, imp);
    LoggedSnoc(ctx, original, names, log, maps, visited, Visits(scope, imp, target));
  }

  lemma VisitedIsDealtWith(ctx: ImportContext, original: Maps, names: set<string>, log: seq<Event>, maps: Maps,
          visited: set<(string, string)>, scope: string, imp: IndexedSymbol)
    requires Logged(ctx, original, names, log, maps, visited) && TakesAll(imp)
    requires (scope, ResolveImportTarget(ctx, maps, scope, ImportTarget(imp))) in visited
    ensures DealtWith(ctx, original, log, scope, imp)
  {
    hide Sane, Genuine, VisitedBy, Replay, ResolveImportTarget, ImportTarget;
    assert log[..|log|] == log;
  }

  lemma TakeFits(ctx: ImportContext, original: Maps, names: set<string>, before: seq<Event>, log: seq<Event>,
          maps: Maps, visited: set<(string, string)>, visit: Event)
    requires visit.Visits? && before + [visit] <= log && Logged(ctx, original, names, log, maps, visited)
    requires Finished(ctx, original, log, |before| + 1) && AllDealtWith(ctx, original, log, visit.target)
    requires visit.scope in original
    ensures visit.scope in maps
    ensures var e := Takes(visit.scope, visit.imp, visit.target);
      Logged(ctx, original, names, log + [e], AfterTakingAll(ctx, maps, visit.scope, visit.imp, visit.target), visited)
    ensures TakesAll(visit.imp) ==>
              DealtWith(ctx, original, log + [Takes(visit.scope, visit.imp, visit.target)], visit.scope, visit.imp)
  {
    hide Covers, Extends, VisitedBy, Replay, AfterTakingAll, Finished, AllDealtWith, TakesAll, TargetAt, ImportsOf;
    ExtendsKeys(original, maps);
    var e := Takes(visit.scope, visit.imp, visit.target);
    assert log[|before|] == visit;
    NotYetTaken(ctx, original, log, |before|);
    TakingAllIsSane(ctx, original, names, maps, visit.scope, visit.imp, visit.target);
    LoggedSnoc(ctx, original, names, log, maps, visited, e);
    assert Fits(ctx, original, log[..|before|], log[|before|]);
    EventIsVisited(log, |before|);
    VisitedSnoc(log, e);
    assert (log + [e])[..|before|] == log[..|before|];
  }

  // ---------------------------------------------------------------------------------------------
  // All scopes
  // ---------------------------------------------------------------------------------------------

  /** The import part of the visibility build: every scope in turn, in any order. The log is genuine, replays to
      the maps, has nothing unfinished, and every import of every scope has been dealt with. */
  method ProcessAllImports(ctx: ImportContext, maps: Maps, scopes: seq<string>) returns (after: Maps,
          visited: set<(string, string)>, ghost log: seq<Event>)
    requires forall scope :: ImportsOf(ctx, scope) != [] ==> scope in maps
    requires forall scope :: scope in maps <==> scope in scopes
    ensures Genuine(ctx, maps, log) && Finished(ctx, maps, log, 0)
    ensures after == Replay(ctx, maps, log) && visited == VisitedBy(log)
    ensures forall scope :: AllDealtWith(ctx, maps, log, scope)
  {
    hide Genuine, Finished, AllDealtWith, Sane, ImportsOf;
    var pass := new ImportPass(ctx, maps);
    NothingStarted(ctx, maps, []);
    for i := 0 to |scopes|
      invariant fresh(pass) && pass.ctx == ctx && pass.original == maps
      invariant pass.Valid() && Finished(ctx, maps, pass.log, 0)
      invariant forall scope :: scope in scopes[..i] ==> AllDealtWith(ctx, maps, pass.log, scope)
    {
      ghost var before := pass.log;
      pass.ProcessImports(scopes[i]);
      FinishedTrans(ctx, maps, before, pass.log, 0);
      assert scopes[..i + 1] == scopes[..i] + [scopes[i]];
      forall scope | scope in scopes[..i] ensures AllDealtWith(ctx, maps, pass.log, scope) {
        AllDealtWithStays(ctx, maps, before, pass.log, scope);
      }
    }
    assert scopes[..|scopes|] == scopes;
    forall scope ensures AllDealtWith(ctx, maps, pass.log, scope) {
      if scope !in maps {
        NothingToDealWith(ctx, maps, pass.log, scope);
      }
    }
    after, visited, log := pass.visibilityMap, pass.visited, pass.log;
  }

  lemma NothingToDealWith(ctx: ImportContext, original: Maps, log: seq<Event>, scope: string)
    requires ImportsOf(ctx, scope) == []
    ensures AllDealtWith(ctx, original, log, scope)
  {
    hide ImportsOf, DealtWith;
  }
}
