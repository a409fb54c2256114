/** The analysis host: files, rebuilds of the symbol index, and element ids that survive them. */
module Analysis {
  import opened Wrappers
  import opened ModelGraph
  import Names

  /** What identity is about: a symbol's qualified name and its element id. */
  datatype NamedId = NamedId(name: string, id: Id)

  /** Which id the next extraction would give to the k-th symbol of a file. */
  type Mint = (string, nat) -> Id

  /** A parsed file stands for the qualified names that extraction finds in it. */
  datatype Host = Host(
    files: map<string, seq<string>>,
    index: map<nat, seq<NamedId>>,
    fileIds: map<string, nat>,
    dirty: set<string>,
    removed: set<string>,
    needsFullRebuild: bool,
    cache: map<string, Id>)

  const NEW_HOST := Host(map[], map[], map[], {}, {}, true, map[])

  /** Empty ids and the all-zero placeholder are not kept. */
  predicate IsProperId(id: Id) {
    id != "" && !Names.StartsWith(id, "00000000-0000-0000-0000")
  }

  // ---------------------------------------------------------------------------------------------
  // Rebuilding
  // ---------------------------------------------------------------------------------------------

  function CacheIds(cache: map<string, Id>, list: seq<NamedId>): map<string, Id>
    decreases |list|
  {
    if list == [] then cache
    else CacheIds(if IsProperId(list[0].id) then cache[list[0].name := list[0].id] else cache, list[1..])
  }

  /** Extraction, with the ids of names that are in the cache put back. */
  function Extracted(cache: map<string, Id>, path: string, names: seq<string>, mint: Mint): (r: seq<NamedId>)
    ensures |r| == |names|
    ensures forall k :: 0 <= k < |r| ==>
              r[k] == NamedId(names[k], if names[k] in cache then cache[names[k]] else mint(path, k))
  {
    seq(|names|,
        k requires 0 <= k < |names| => NamedId(names[k], if names[k] in cache then cache[names[k]] else mint(path, k)))
  }

  function IndexedIn(h: Host, file: nat): seq<NamedId> {
    if file in h.index then h.index[file] else []
  }

  /** A removed file: its ids go to the cache before its symbols leave the index. */
  function DropFile(h: Host, path: string): Host {
    if path !in h.fileIds then h
    else
      var file := h.fileIds[path];
      h.(cache := CacheIds(h.cache, IndexedIn(h, file)), index := h.index - {file})
  }

  function DropFiles(h: Host, paths: seq<string>): Host
    decreases |paths|
  {
    if paths == [] then h else DropFiles(DropFile(h, paths[0]), paths[1..])
  }

  /** The host with a file id for the path, and the ids of what the file held so far in the cache. */
  function Identified(h: Host, path: string): (r: Host)
    ensures path in r.fileIds
  {
    if path in h.fileIds then h.(cache := CacheIds(h.cache, IndexedIn(h, h.fileIds[path])))
    else h.(fileIds := h.fileIds[path := |h.fileIds|])
  }

  function RefreshFile(h: Host, path: string, mint: Mint): Host {
    var g := Identified(h, path);
    if path !in g.files then g
    else g.(index := g.index[g.fileIds[path] := Extracted(g.cache, path, g.files[path], mint)])
  }

  function RefreshFiles(h: Host, paths: seq<string>, mint: Mint): Host
    decreases |paths|
  {
    if paths == [] then h else RefreshFiles(RefreshFile(h, paths[0], mint), paths[1..], mint)
  }

  /** The removed and the dirty files are taken in any order. */
  function IncrementalRebuild(h: Host, removedOrder: seq<string>, dirtyOrder: seq<string>, mint: Mint): Host {
    RefreshFiles(DropFiles(h, removedOrder), dirtyOrder, mint).(removed := {}, dirty := {})
  }

  /** The ids of all indexed symbols in the cache. */
  function CacheFiles(h: Host, files: seq<nat>): map<string, Id> {
    if files == [] then h.cache
    else CacheIds(CacheFiles(h, files[..|files| - 1]), IndexedIn(h, files[|files| - 1]))
  }

  /** A new index from all files, which are numbered in the order they come. */
  function Renumbered(h: Host, order: seq<string>, mint: Mint): Host {
    if order == [] then h.(index := map[], fileIds := map[])
    else
      var n := |order| - 1;
      var g := Renumbered(h, order[..n], mint);
      var path := order[n];
      if path !in g.files then g
      else
        g.(fileIds := g.fileIds[path := n],
           index := g.index[n := Extracted(g.cache, path, g.files[path], mint)])
  }

  function FullRebuild(h: Host, indexed: seq<nat>, order: seq<string>, mint: Mint): Host {
    Renumbered(h.(cache := CacheFiles(h, indexed)), order, mint)
      .(needsFullRebuild := false, removed := {}, dirty := {})
  }

  // ---------------------------------------------------------------------------------------------
  // Known ids
  // ---------------------------------------------------------------------------------------------

  /** The id under which a list holds a name: that of its last entry, as the index by name has it. */
  function LastId(list: seq<NamedId>, name: string): Option<Id> {
    if list == [] then None
    else
      var later := LastId(list[1..], name);
      if later.Some? then later else if list[0].name == name then Some(list[0].id) else None
  }

  lemma {:induction false} LastIsEntry(list: seq<NamedId>, name: string) returns (k: nat)
    requires LastId(list, name).Some?
    ensures k < |list| && list[k] == NamedId(name, LastId(list, name).value)
  {
    if LastId(list[1..], name).Some? {
      k := LastIsEntry(list[1..], name);
      k := k + 1;
    } else {
      k := 0;
    }
  }

  lemma {:induction false} EntryHasLast(list: seq<NamedId>, k: nat)
    requires k < |list|
    ensures LastId(list, list[k].name).Some?
  {
    if k > 0 {
      EntryHasLast(list[1..], k - 1);
    }
  }

  /** A name is live with an id. */
  ghost predicate IsLiveAs(h: Host, name: string, id: Id) {
    exists f :: f in h.index && LastId(h.index[f], name) == Some(id)
  }

  /** A name is live or cached with an id. */
  ghost predicate Known(h: Host, name: string, id: Id) {
    IsLiveAs(h, name, id) || (name in h.cache && h.cache[name] == id)
  }

  /** No name is known under two ids, and all known ids can be cached. */
  ghost predicate Consistent(h: Host) {
    && (forall n, i, j :: Known(h, n, i) && Known(h, n, j) ==> i == j)
    && (forall n, i :: Known(h, n, i) ==> IsProperId(i))
  }

  /** Every known id is still known. */
  ghost predicate Remembers(before: Host, after: Host) {
    forall n, i :: Known(before, n, i) ==> Known(after, n, i)
  }

  /** File ids are distinct, and only files that have one are indexed. */
  ghost predicate Numbered(h: Host) {
    && (forall p, q :: p in h.fileIds && q in h.fileIds && p != q ==> h.fileIds[p] != h.fileIds[q])
    && (forall p :: p in h.fileIds ==> h.fileIds[p] < |h.fileIds|)
    && (forall f :: f in h.index ==> exists p :: p in h.fileIds && h.fileIds[p] == f)
  }

  ghost predicate Valid(h: Host) {
    Consistent(h) && Numbered(h)
  }

  /** Caching a list leaves every name with the list's id for it, or else with the one it had. */
  lemma {:induction false} CacheIdsAt(cache: map<string, Id>, list: seq<NamedId>, n: string)
    requires forall m :: LastId(list, m).Some? ==> IsProperId(LastId(list, m).value)
    ensures var r := CacheIds(cache, list);
      && (n in r <==> n in cache || LastId(list, n).Some?)
      && (n in r ==> r[n] == LastId(list, n).GetOr(if n in cache then cache[n] else ""))
    decreases |list|
  {
    hide IsProperId;
    if list != [] {
      var x := list[0];
      forall m | LastId(list[1..], m).Some? ensures IsProperId(LastId(list[1..], m).value) {
        assert LastId(list, m) == LastId(list[1..], m);
      }
      assert LastId(list, x.name).Some?;
      CacheIdsAt(if IsProperId(x.id) then cache[x.name := x.id] else cache, list[1..], n);
    }
  }

  lemma CacheIdsHolds(h: Host, list: seq<NamedId>)
    requires Consistent(h) && forall n :: LastId(list, n).Some? ==> Known(h, n, LastId(list, n).value)
    ensures CachesMore(h, CacheIds(h.cache, list)) && CachedFrom(CacheIds(h.cache, list), list)
  {
    hide LastId, IsLiveAs, IsProperId, CacheIds;
    var cache := CacheIds(h.cache, list);
    assert forall n :: LastId(list, n).Some? ==> IsProperId(LastId(list, n).value);
    forall n
      ensures n in cache ==> Known(h, n, cache[n])
      ensures n in h.cache ==> n in cache && cache[n] == h.cache[n]
      ensures LastId(list, n).Some? ==> n in cache && cache[n] == LastId(list, n).value
    {
      CacheIdsAt(h.cache, list, n);
      assert n in h.cache ==> Known(h, n, h.cache[n]);
    }
  }

  /** Every name of a list is cached with the list's id for it. */
  ghost predicate CachedFrom(cache: map<string, Id>, list: seq<NamedId>) {
    forall n :: LastId(list, n).Some? ==> n in cache && cache[n] == LastId(list, n).value
  }

  /** A host whose cache holds more of what is known, and nothing else. */
  ghost predicate CachesMore(h: Host, cache: map<string, Id>) {
    && (forall n :: n in cache ==> Known(h, n, cache[n]))
    && (forall n :: n in h.cache ==> n in cache && cache[n] == h.cache[n])
  }

  lemma CachingMore(h: Host, cache: map<string, Id>)
    requires Consistent(h) && CachesMore(h, cache)
    ensures Consistent(h.(cache := cache)) && Remembers(h, h.(cache := cache)) && Remembers(h.(cache := cache), h)
  {
    hide IsProperId;
    var g := h.(cache := cache);
    forall n, i ensures Known(g, n, i) <==> Known(h, n, i) {
      assert IsLiveAs(g, n, i) <==> IsLiveAs(h, n, i);
    }
  }

  /** Symbols may leave the index once their ids are cached. */
  lemma ForgettingCached(h: Host, index: map<nat, seq<NamedId>>)
    requires Consistent(h) && forall f :: f in index ==> f in h.index && index[f] == h.index[f]
    requires forall f :: f in h.index && f !in index ==> CachedFrom(h.cache, h.index[f])
    ensures Consistent(h.(index := index)) && Remembers(h, h.(index := index))
  {
    hide IsProperId, LastId;
    var g := h.(index := index);
    forall n, i ensures Known(g, n, i) <==> Known(h, n, i) {
      if f :| f in h.index && LastId(h.index[f], n) == Some(i) {
        assert f in index ==> IsLiveAs(g, n, i);
      }
      if f :| f in index && LastId(index[f], n) == Some(i) {
        assert IsLiveAs(h, n, i);
      }
    }
  }

  lemma RemembersTrans(a: Host, b: Host, c: Host)
    requires Remembers(a, b) && Remembers(b, c)
    ensures Remembers(a, c)
  {
    hide Known;
  }

  lemma IndexedAreKnown(h: Host, file: nat)
    ensures forall n :: LastId(IndexedIn(h, file), n).Some? ==> Known(h, n, LastId(IndexedIn(h, file), n).value)
  {
    forall n | LastId(IndexedIn(h, file), n).Some? ensures Known(h, n, LastId(IndexedIn(h, file), n).value) {
      assert IsLiveAs(h, n, LastId(IndexedIn(h, file), n).value);
    }
  }

  /** Caching one file's ids. */
  lemma CachingFile(h: Host, file: nat)
    requires Consistent(h)
    ensures CachesMore(h, CacheIds(h.cache, IndexedIn(h, file)))
    ensures CachedFrom(CacheIds(h.cache, IndexedIn(h, file)), IndexedIn(h, file))
  {
    hide Known, Consistent, IsProperId, CacheIds;
    IndexedAreKnown(h, file);
    CacheIdsHolds(h, IndexedIn(h, file));
  }

  lemma DropFileKeeps(h: Host, path: string)
    requires Valid(h)
    ensures Valid(DropFile(h, path)) && Remembers(h, DropFile(h, path))
  {
    hide Known, Consistent, CacheIds, CachesMore;
    if path in h.fileIds {
      var file := h.fileIds[path];
      var g := h.(cache := CacheIds(h.cache, IndexedIn(h, file)));
      CachingFile(h, file);
      CachingMore(h, g.cache);
      ForgettingCached(g, h.index - {file});
      RemembersTrans(h, g, DropFile(h, path));
    }
  }

  // ---------------------------------------------------------------------------------------------
  // Extraction
  // ---------------------------------------------------------------------------------------------

  ghost predicate AllProper(mint: Mint) {
    forall p, k :: IsProperId(mint(p, k))
  }

  ghost predicate AllDistinct(names: seq<string>) {
    forall i, j :: 0 <= i < j < |names| ==> names[i] != names[j]
  }

  /** A name that is live in a file other than `file`. */
  ghost predicate LiveElsewhere(h: Host, file: nat, name: string) {
    exists f :: f in h.index && f != file && LastId(h.index[f], name).Some?
  }

  /** What an extraction may put in the place of a file's symbols: names that are in the cache under their
      cached ids, and others, which are known nowhere, under proper ids. */
  ghost predicate FitsIn(h: Host, file: nat, list: seq<NamedId>) {
    && (forall n :: LastId(list, n).Some? && n in h.cache ==> LastId(list, n).value == h.cache[n])
    && (forall n :: LastId(list, n).Some? && n !in h.cache ==>
          !LiveElsewhere(h, file, n) && IsProperId(LastId(list, n).value))
  }

  /** What is known after a file's symbols have been replaced. */
  lemma ReplacedKnown(h: Host, file: nat, list: seq<NamedId>, n: string, i: Id)
    ensures var g := h.(index := h.index[file := list]);
      Known(g, n, i) <==> LastId(list, n) == Some(i) || (n in h.cache && h.cache[n] == i)
                          || exists f :: f in h.index && f != file && LastId(h.index[f], n) == Some(i)
  {
    hide LastId;
    var g := h.(index := h.index[file := list]);
    if LastId(list, n) == Some(i) {
      assert LastId(g.index[file], n) == Some(i);
    }
    if f :| f in h.index && f != file && LastId(h.index[f], n) == Some(i) {
      assert LastId(g.index[f], n) == Some(i);
    }
  }

  /** A name that is not in the list is known after the replacement only if it was before. */
  lemma ReplacedWasKnown(h: Host, file: nat, list: seq<NamedId>, n: string, i: Id)
    requires Known(h.(index := h.index[file := list]), n, i) && LastId(list, n) != Some(i)
    ensures Known(h, n, i) && (n in h.cache || LiveElsewhere(h, file, n))
  {
    hide LastId;
    ReplacedKnown(h, file, list, n, i);
    if f :| f in h.index && f != file && LastId(h.index[f], n) == Some(i) {
      assert IsLiveAs(h, n, i);
    }
  }

  lemma ReplacingIsConsistent(h: Host, file: nat, list: seq<NamedId>)
    requires Consistent(h) && FitsIn(h, file, list)
    ensures Consistent(h.(index := h.index[file := list]))
  {
    hide Known, IsProperId;
    var g := h.(index := h.index[file := list]);
    forall n, i | Known(g, n, i) ensures IsProperId(i) {
      KnownIsProper(h, file, list, n, i);
    }
    forall n, i, j | Known(g, n, i) && Known(g, n, j) ensures i == j {
      KnownOnce(h, file, list, n, i, j);
    }
  }

  lemma KnownIsProper(h: Host, file: nat, list: seq<NamedId>, n: string, i: Id)
    requires Consistent(h) && FitsIn(h, file, list) && Known(h.(index := h.index[file := list]), n, i)
    ensures IsProperId(i)
  {
    hide IsProperId, LiveElsewhere, LastId;
    if LastId(list, n) != Some(i) {
      ReplacedWasKnown(h, file, list, n, i);
    } else {
      assert n in h.cache ==> Known(h, n, h.cache[n]);
    }
  }

  lemma KnownOnce(h: Host, file: nat, list: seq<NamedId>, n: string, i: Id, j: Id)
    requires Consistent(h) && FitsIn(h, file, list)
    requires Known(h.(index := h.index[file := list]), n, i) && Known(h.(index := h.index[file := list]), n, j)
    ensures i == j
  {
    hide IsProperId, LiveElsewhere, IsLiveAs, LastId;
    if LastId(list, n) != Some(i) {
      ReplacedWasKnown(h, file, list, n, i);
    }
    if LastId(list, n) != Some(j) {
      ReplacedWasKnown(h, file, list, n, j);
    }
    assert n in h.cache ==> Known(h, n, h.cache[n]);
  }

  lemma ReplacingRemembers(h: Host, file: nat, list: seq<NamedId>)
    requires CachedFrom(h.cache, IndexedIn(h, file))
    ensures Remembers(h, h.(index := h.index[file := list]))
  {
    hide LastId;
    var g := h.(index := h.index[file := list]);
    forall n, i | Known(h, n, i) ensures Known(g, n, i) {
      ReplacedKnown(h, file, list, n, i);
      if f :| f in h.index && LastId(h.index[f], n) == Some(i) {
        assert f == file ==> LastId(IndexedIn(h, file), n) == Some(i);
      }
    }
  }

  /** A name is extracted if the file has it, with its cached id or else with one that was minted for it. */
  lemma ExtractedLast(cache: map<string, Id>, path: string, names: seq<string>, mint: Mint, n: string) returns (k: nat)
    ensures var last := LastId(Extracted(cache, path, names, mint), n);
      && (last.Some? <==> n in names)
      && (last.Some? ==> k < |names| && names[k] == n && last.value == if n in cache then cache[n] else mint(path, k))
  {
    hide LastId;
    var list := Extracted(cache, path, names, mint);
    k := 0;
    if LastId(list, n).Some? {
      k := LastIsEntry(list, n);
    }
    if n in names {
      var j :| 0 <= j < |names| && names[j] == n;
      EntryHasLast(list, j);
    }
  }

  lemma ExtractedFits(h: Host, file: nat, path: string, names: seq<string>, mint: Mint)
    requires AllProper(mint) && forall n :: n in names && n !in h.cache ==> !LiveElsewhere(h, file, n)
    ensures FitsIn(h, file, Extracted(h.cache, path, names, mint))
  {
    hide LiveElsewhere, IsProperId, LastId, Extracted;
    var list := Extracted(h.cache, path, names, mint);
    forall n | LastId(list, n).Some?
      ensures n in h.cache ==> LastId(list, n).value == h.cache[n]
      ensures n !in h.cache ==> !LiveElsewhere(h, file, n) && IsProperId(LastId(list, n).value)
    {
      var k := ExtractedLast(h.cache, path, names, mint, n);
      assert IsProperId(mint(path, k));
    }
  }

  // ---------------------------------------------------------------------------------------------
  // One dirty file
  // ---------------------------------------------------------------------------------------------

  ghost predicate HasName(list: seq<NamedId>, name: string) {
    LastId(list, name).Some?
  }

  /** A name whose id is in the cache by the time the file is extracted, were it taken now. */
  ghost predicate CachedBefore(h: Host, path: string, n: string) {
    n in h.cache || (path in h.fileIds && HasName(IndexedIn(h, h.fileIds[path]), n))
  }

  /** None of the names that a file now holds is indexed under another file without being cached in time. */
  ghost predicate NothingMoved(h: Host, path: string) {
    path in h.files ==>
      forall q, n :: q in h.fileIds && q != path && n in h.files[path] && HasName(IndexedIn(h, h.fileIds[q]), n) ==>
        CachedBefore(h, path, n)
  }

  lemma IdentifiedKeeps(h: Host, path: string)
    requires Valid(h)
    ensures var g := Identified(h, path);
      && Valid(g) && Remembers(h, g) && g.files == h.files && g.index == h.index && h.cache.Keys <= g.cache.Keys
      && (forall q :: q in h.fileIds ==> q in g.fileIds && g.fileIds[q] == h.fileIds[q])
      && (forall q :: q in g.fileIds && q != path ==> q in h.fileIds)
      && CachedFrom(g.cache, IndexedIn(g, g.fileIds[path]))
      && (path !in h.fileIds ==> IndexedIn(g, g.fileIds[path]) == [])
  {
    hide Consistent, CacheIds, Known, IsProperId;
    var g := Identified(h, path);
    if path in h.fileIds {
      CachingFile(h, h.fileIds[path]);
      CachingMore(h, g.cache);
    } else {
      NumberingOneMore(h, path);
    }
  }

  lemma NumberingOneMore(h: Host, path: string)
    requires Valid(h) && path !in h.fileIds
    ensures var g := Identified(h, path);
      Valid(g) && Remembers(h, g) && IndexedIn(g, g.fileIds[path]) == []
  {
    hide IsProperId;
    var g := Identified(h, path);
    forall n, i ensures Known(g, n, i) <==> Known(h, n, i) {
      assert IsLiveAs(g, n, i) <==> IsLiveAs(h, n, i);
    }
    assert |g.fileIds| == |h.fileIds| + 1;
    forall f | f in g.index ensures exists p :: p in g.fileIds && g.fileIds[p] == f {
      var p :| p in h.fileIds && h.fileIds[p] == f;
      assert g.fileIds[p] == f;
    }
  }

  lemma NotElsewhere(h: Host, path: string, name: string)
    requires Numbered(h) && path in h.fileIds && path in h.files && NothingMoved(h, path) && name in h.files[path]
    requires !CachedBefore(h, path, name)
    ensures !LiveElsewhere(h, h.fileIds[path], name)
  {
    if f :| f in h.index && f != h.fileIds[path] && LastId(h.index[f], name).Some? {
      var q :| q in h.fileIds && h.fileIds[q] == f;
      assert HasName(IndexedIn(h, h.fileIds[q]), name);
    }
  }

  lemma ReplacingIsNumbered(g: Host, path: string, list: seq<NamedId>)
    requires Numbered(g) && path in g.fileIds
    ensures Numbered(g.(index := g.index[g.fileIds[path] := list]))
  {
  }

  /** A file that has its id, with what it held cached, takes over its newly extracted symbols. */
  lemma ExtractionKeeps(g: Host, path: string, mint: Mint)
    requires Valid(g) && AllProper(mint) && path in g.fileIds && path in g.files
    requires NothingMoved(g, path)
    requires CachedFrom(g.cache, IndexedIn(g, g.fileIds[path]))
    ensures var r := g.(index := g.index[g.fileIds[path] := Extracted(g.cache, path, g.files[path], mint)]);
      Valid(r) && Remembers(g, r)
  {
    hide Consistent, Numbered, Remembers, LiveElsewhere, FitsIn, AllProper, Extracted, NothingMoved;
    var file, list := g.fileIds[path], Extracted(g.cache, path, g.files[path], mint);
    forall n | n in g.files[path] && n !in g.cache ensures !LiveElsewhere(g, file, n) {
      NotElsewhere(g, path, n);
    }
    ExtractedFits(g, file, path, g.files[path], mint);
    ReplacingIsConsistent(g, file, list);
    ReplacingRemembers(g, file, list);
    ReplacingIsNumbered(g, path, list);
  }

  lemma RefreshFileKeeps(h: Host, path: string, mint: Mint)
    requires Valid(h) && AllProper(mint) && NothingMoved(h, path)
    ensures Valid(RefreshFile(h, path, mint)) && Remembers(h, RefreshFile(h, path, mint))
  {
    hide Valid, Remembers, AllProper, Extracted, Identified, HasName;
    var g := Identified(h, path);
    IdentifiedKeeps(h, path);
    if path in h.files {
      forall q, n | q in g.fileIds && q != path && n in g.files[path] && HasName(IndexedIn(g, g.fileIds[q]), n)
        ensures CachedBefore(g, path, n)
      {
        assert CachedBefore(h, path, n);
      }
      ExtractionKeeps(g, path, mint);
      RemembersTrans(h, g, RefreshFile(h, path, mint));
    }
  }

  /** No name occurs in two files; within one it may occur any number of times. */
  ghost predicate FilesDisjoint(files: map<string, seq<string>>) {
    forall p, q, n :: p in files && q in files && p != q && n in files[p] ==> n !in files[q]
  }

  lemma ExtractedNames(cache: map<string, Id>, path: string, names: seq<string>, mint: Mint, name: string)
    ensures HasName(Extracted(cache, path, names, mint), name) ==> name in names
  {
    var k := ExtractedLast(cache, path, names, mint, name);
  }

  /** What another file's entry is after one file has been refreshed. */
  lemma RefreshedEntry(h: Host, path: string, mint: Mint, q: string)
    requires Valid(h) && q in RefreshFile(h, path, mint).fileIds
    ensures var r := RefreshFile(h, path, mint);
      && r.files == h.files
      && (q != path ==> q in h.fileIds && IndexedIn(r, r.fileIds[q]) == IndexedIn(h, h.fileIds[q]))
      && (q == path && path in h.files ==>
            IndexedIn(r, r.fileIds[q]) == Extracted(Identified(h, path).cache, path, h.files[path], mint))
      && (q == path && path !in h.files ==>
            IndexedIn(r, r.fileIds[q]) == if path in h.fileIds then IndexedIn(h, h.fileIds[q]) else [])
  {
    hide Consistent, Numbered, Extracted, CacheIds, Identified;
    IdentifiedKeeps(h, path);
    var g := Identified(h, path);
    if q != path {
      EntryElsewhere(g, path, Extracted(g.cache, path, if path in g.files then g.files[path] else [], mint), q);
    }
  }

  lemma EntryElsewhere(g: Host, path: string, list: seq<NamedId>, q: string)
    requires Numbered(g) && path in g.fileIds && q in g.fileIds && q != path
    ensures IndexedIn(g.(index := g.index[g.fileIds[path] := list]), g.fileIds[q]) == IndexedIn(g, g.fileIds[q])
  {
  }

  /** The cache only grows. */
  lemma RefreshCaches(h: Host, path: string, mint: Mint)
    requires Valid(h)
    ensures h.cache.Keys <= RefreshFile(h, path, mint).cache.Keys
  {
    hide Known, Consistent, IsProperId, CacheIds, Extracted;
    if path in h.fileIds {
      CachingFile(h, h.fileIds[path]);
    }
  }

  /** Refreshing one file does not move names into the way of another. */
  lemma RefreshFileMovesNothing(h: Host, path: string, mint: Mint, p: string)
    requires Valid(h) && FilesDisjoint(h.files) && p != path && NothingMoved(h, p)
    ensures NothingMoved(RefreshFile(h, path, mint), p)
  {
    hide Valid, Extracted, HasName, RefreshFile, Identified;
    var r := RefreshFile(h, path, mint);
    if p in r.files {
      RefreshCaches(h, path, mint);
      forall q, n | q in r.fileIds && q != p && n in r.files[p] && HasName(IndexedIn(r, r.fileIds[q]), n)
        ensures CachedBefore(r, p, n)
      {
        RefreshedEntry(h, path, mint, q);
        if p in h.fileIds {
          FileIdsStay(h, path, mint, p);
          RefreshedEntry(h, path, mint, p);
        }
        if q == path && path in h.files {
          ExtractedNames(Identified(h, path).cache, path, h.files[path], mint, n);
        } else if q !in h.fileIds {
          NoNameInEmpty(n);
        }
      }
    }
  }

  lemma FileIdsStay(h: Host, path: string, mint: Mint, q: string)
    requires q in h.fileIds
    ensures q in RefreshFile(h, path, mint).fileIds
  {
    hide Extracted, CacheIds;
  }

  lemma NoNameInEmpty(name: string)
    ensures !HasName([], name)
  {
  }

  lemma {:induction false} RefreshFilesKeep(h: Host, paths: seq<string>, mint: Mint)
    requires Valid(h) && AllProper(mint) && FilesDisjoint(h.files) && AllDistinct(paths)
    requires forall p :: p in paths ==> NothingMoved(h, p)
    ensures Valid(RefreshFiles(h, paths, mint)) && Remembers(h, RefreshFiles(h, paths, mint))
    decreases |paths|
  {
    hide Valid, AllProper, NothingMoved, Known, CacheIds, Extracted;
    if paths != [] {
      var g := RefreshFile(h, paths[0], mint);
      assert paths[0] in paths;
      RefreshFileKeeps(h, paths[0], mint);
      assert AllDistinct(paths[1..]);
      forall p | p in paths[1..] ensures NothingMoved(g, p) {
        assert p in paths && p != paths[0];
        RefreshFileMovesNothing(h, paths[0], mint, p);
      }
      RefreshFilesKeep(g, paths[1..], mint);
      RemembersTrans(h, g, RefreshFiles(h, paths, mint));
    }
  }

  // ---------------------------------------------------------------------------------------------
  // The incremental rebuild
  // ---------------------------------------------------------------------------------------------

  /** What dropping files leaves: everything but the index entries of those files and the cache. */
  ghost predicate Leaves(h: Host, g: Host, paths: seq<string>) {
    && g.files == h.files && g.fileIds == h.fileIds
    && (forall p :: p in h.fileIds ==>
          IndexedIn(g, h.fileIds[p]) == if p in paths then [] else IndexedIn(h, h.fileIds[p]))
  }

  lemma DropFileLeaves(h: Host, path: string)
    requires Numbered(h)
    ensures Leaves(h, DropFile(h, path), [path])
  {
    hide CacheIds;
  }

  lemma LeavesTrans(h: Host, g: Host, k: Host, path: string, paths: seq<string>)
    requires Leaves(h, g, [path]) && Leaves(g, k, paths)
    ensures Leaves(h, k, [path] + paths)
  {
    hide IndexedIn;
  }

  lemma {:induction false} DropFilesKeep(h: Host, paths: seq<string>)
    requires Valid(h)
    ensures var g := DropFiles(h, paths); Valid(g) && Remembers(h, g) && Leaves(h, g, paths)
    decreases |paths|
  {
    hide Consistent, Numbered, Remembers, Leaves, DropFile;
    if paths != [] {
      var g := DropFile(h, paths[0]);
      DropFileKeeps(h, paths[0]);
      DropFileLeaves(h, paths[0]);
      DropFilesKeep(g, paths[1..]);
      RemembersTrans(h, g, DropFiles(h, paths));
      LeavesTrans(h, g, DropFiles(h, paths), paths[0], paths[1..]);
      assert paths == [paths[0]] + paths[1..];
    } else {
      NothingDropped(h);
    }
  }

  lemma NothingDropped(h: Host)
    ensures Remembers(h, h) && Leaves(h, h, [])
  {
  }

  /** A name of a file that is being removed. */
  ghost predicate IsDropped(h: Host, paths: seq<string>, n: string) {
    exists q :: q in paths && q in h.fileIds && HasName(IndexedIn(h, h.fileIds[q]), n)
  }

  lemma IndexedAreProper(h: Host, file: nat)
    requires Consistent(h)
    ensures forall n :: LastId(IndexedIn(h, file), n).Some? ==> IsProperId(LastId(IndexedIn(h, file), n).value)
  {
    hide IsProperId, Known, LastId;
    IndexedAreKnown(h, file);
  }

  lemma DropFileCaches(h: Host, path: string, n: string)
    requires Valid(h)
    ensures n in DropFile(h, path).cache <==> n in h.cache || IsDropped(h, [path], n)
  {
    hide Consistent, Numbered, IsProperId, CacheIds, LastId;
    if path in h.fileIds {
      IndexedAreProper(h, h.fileIds[path]);
      CacheIdsAt(h.cache, IndexedIn(h, h.fileIds[path]), n);
      assert path in [path];
    }
  }

  lemma DroppedEither(h: Host, g: Host, path: string, paths: seq<string>, n: string)
    requires Leaves(h, g, [path])
    ensures IsDropped(h, [path] + paths, n) <==> IsDropped(h, [path], n) || IsDropped(g, paths, n)
  {
    hide IndexedIn;
    var all := [path] + paths;
    if q :| q in all && q in h.fileIds && HasName(IndexedIn(h, h.fileIds[q]), n) {
      if q == path {
        assert q in [path];
      } else {
        assert q in paths && HasName(IndexedIn(g, g.fileIds[q]), n);
      }
    }
    if q :| q in paths && q in g.fileIds && HasName(IndexedIn(g, g.fileIds[q]), n) {
      assert q in all && HasName(IndexedIn(h, h.fileIds[q]), n);
    }
    if q :| q in [path] && q in h.fileIds && HasName(IndexedIn(h, h.fileIds[q]), n) {
      assert q in all;
    }
  }

  /** Dropping files caches exactly their names. */
  lemma {:induction false} DroppedNames(h: Host, paths: seq<string>, n: string)
    requires Valid(h)
    ensures n in DropFiles(h, paths).cache <==> n in h.cache || IsDropped(h, paths, n)
    decreases |paths|
  {
    hide Valid, DropFile, IsDropped;
    if paths != [] {
      var g := DropFile(h, paths[0]);
      DropFileKeeps(h, paths[0]);
      DropFileCaches(h, paths[0], n);
      ValidIsNumbered(h);
      DropFileLeaves(h, paths[0]);
      DroppedNames(g, paths[1..], n);
      DroppedEither(h, g, paths[0], paths[1..], n);
      assert paths == [paths[0]] + paths[1..];
    } else {
      assert !IsDropped(h, [], n) by {
        NoneDropped(h, n);
      }
    }
  }

  lemma NoneDropped(h: Host, n: string)
    ensures !IsDropped(h, [], n)
  {
  }

  lemma ValidIsNumbered(h: Host)
    requires Valid(h)
    ensures Numbered(h)
  {
  }

  /** A name that moves into a dirty file before its id is cached: it is indexed under a file that stays, and
      neither cached, nor indexed under a file that is being removed, nor under the dirty file itself. */
  ghost predicate MovesUncached(h: Host, p: string, n: string) {
    && p in h.dirty && p in h.files && n in h.files[p] && !CachedBefore(h, p, n)
    && (exists q :: q in h.fileIds && q != p && q !in h.removed && HasName(IndexedIn(h, h.fileIds[q]), n))
    && !(exists q :: q in h.removed && q in h.fileIds && HasName(IndexedIn(h, h.fileIds[q]), n))
  }

  ghost predicate NoNameMoves(h: Host) {
    forall p, n :: !MovesUncached(h, p, n)
  }

  ghost predicate Enumerates(order: seq<string>, paths: set<string>) {
    AllDistinct(order) && forall p :: p in order <==> p in paths
  }

  lemma DroppedMovesNothing(h: Host, removedOrder: seq<string>, p: string)
    requires Valid(h) && NoNameMoves(h) && p in h.dirty && Enumerates(removedOrder, h.removed)
    ensures NothingMoved(DropFiles(h, removedOrder), p)
  {
    hide Consistent, Numbered, HasName, DropFiles;
    var g := DropFiles(h, removedOrder);
    DropFilesKeep(h, removedOrder);
    if p in h.files {
      forall q, n | q in g.fileIds && q != p && n in g.files[p] && HasName(IndexedIn(g, g.fileIds[q]), n)
        ensures CachedBefore(g, p, n)
      {
        NoNameInEmpty(n);
        DroppedNames(h, removedOrder, n);
        assert !MovesUncached(h, p, n);
        assert q !in h.removed;
        assert IndexedIn(g, g.fileIds[q]) == IndexedIn(h, h.fileIds[q]);
        if !(exists o :: o in h.removed && o in h.fileIds && HasName(IndexedIn(h, h.fileIds[o]), n)) {
          assert CachedBefore(h, p, n);
        }
      }
    }
  }

  lemma IncrementalKeeps(h: Host, removedOrder: seq<string>, dirtyOrder: seq<string>, mint: Mint)
    requires Valid(h) && AllProper(mint) && FilesDisjoint(h.files) && NoNameMoves(h)
    requires Enumerates(removedOrder, h.removed) && Enumerates(dirtyOrder, h.dirty)
    ensures Valid(IncrementalRebuild(h, removedOrder, dirtyOrder, mint))
    ensures Remembers(h, IncrementalRebuild(h, removedOrder, dirtyOrder, mint))
  {
    hide Valid, AllProper, NothingMoved, NoNameMoves, Known, FilesDisjoint, DropFiles, RefreshFiles;
    var g := DropFiles(h, removedOrder);
    DropFilesKeep(h, removedOrder);
    forall p | p in dirtyOrder ensures NothingMoved(g, p) {
      DroppedMovesNothing(h, removedOrder, p);
    }
    RefreshFilesKeep(g, dirtyOrder, mint);
    var r := RefreshFiles(g, dirtyOrder, mint);
    RemembersTrans(h, g, r);
    FlagsDoNotMatter(r, r.(removed := {}, dirty := {}));
    RemembersTrans(h, r, r.(removed := {}, dirty := {}));
  }

  /** Identity depends on the index, the cache and the numbering alone. */
  lemma FlagsDoNotMatter(h: Host, g: Host)
    requires g.index == h.index && g.cache == h.cache && g.fileIds == h.fileIds
    ensures Remembers(h, g) && (Valid(h) ==> Valid(g))
  {
    hide IsProperId;
    forall n, i ensures Known(g, n, i) <==> Known(h, n, i) {
      assert IsLiveAs(g, n, i) <==> IsLiveAs(h, n, i);
    }
  }

  // ---------------------------------------------------------------------------------------------
  // The full rebuild
  // ---------------------------------------------------------------------------------------------

  lemma {:induction false} CacheFilesHolds(h: Host, files: seq<nat>)
    requires Consistent(h)
    ensures CachesMore(h, CacheFiles(h, files))
    ensures forall f :: f in files ==> CachedFrom(CacheFiles(h, files), IndexedIn(h, f))
  {
    hide Known, Consistent, IsProperId, CacheIds, LastId;
    CachesItself(h);
    if files != [] {
      var n := |files| - 1;
      var g := h.(cache := CacheFiles(h, files[..n]));
      CacheFilesHolds(h, files[..n]);
      CachingMore(h, g.cache);
      CachingFile(g, files[n]);
      assert IndexedIn(g, files[n]) == IndexedIn(h, files[n]);
      assert forall f :: f in files ==> f == files[n] || f in files[..n];
    }
  }

  lemma CachesItself(h: Host)
    ensures CachesMore(h, h.cache)
  {
  }

  /** The first `n` files are numbered and indexed, the others are not. */
  ghost predicate NumberedUpTo(h: Host, order: seq<string>, n: nat) {
    && n <= |order|
    && |h.fileIds| == n && (forall k :: 0 <= k < n ==> order[k] in h.fileIds && h.fileIds[order[k]] == k)
    && (forall p :: p in h.fileIds ==> p in order[..n])
    && (forall f :: f in h.index ==> f < n)
  }

  lemma NumberedUpToIsNumbered(h: Host, order: seq<string>, n: nat)
    requires NumberedUpTo(h, order, n)
    ensures Numbered(h)
  {
    forall p | p in h.fileIds ensures exists k :: 0 <= k < n && order[k] == p && h.fileIds[p] == k {
      var k :| 0 <= k < |order[..n]| && order[..n][k] == p;
      assert order[k] == p;
    }
    forall f | f in h.index ensures exists p :: p in h.fileIds && h.fileIds[p] == f {
      assert order[f] in h.fileIds && h.fileIds[order[f]] == f;
    }
  }

  /** Names indexed so far come from the files taken so far. */
  ghost predicate IndexedFrom(h: Host, order: seq<string>, n: nat) {
    forall f :: f in h.index ==> EntryFrom(h, order, n, f)
  }

  ghost predicate EntryFrom(h: Host, order: seq<string>, n: nat, f: nat)
    requires f in h.index
  {
    f < n <= |order| && order[f] in h.files && forall x :: x in h.index[f] ==> x.name in h.files[order[f]]
  }

  /** What holds after `n` files have been taken. */
  ghost predicate TakenUpTo(h: Host, g: Host, order: seq<string>, n: nat) {
    && Consistent(g) && Remembers(h.(index := map[]), g) && g.files == h.files && g.cache == h.cache
    && NumberedUpTo(g, order, n) && IndexedFrom(g, order, n)
  }

  lemma NextFileFits(h: Host, g: Host, order: seq<string>, n: nat, mint: Mint)
    requires TakenUpTo(h, g, order, n) && n < |order| && order[n] in h.files
    requires AllProper(mint) && FilesDisjoint(h.files) && AllDistinct(order)
    ensures FitsIn(g, n, Extracted(g.cache, order[n], g.files[order[n]], mint)) && IndexedIn(g, n) == []
  {
    hide Consistent, Known, AllProper, Remembers, IsProperId, LastId;
    var path := order[n];
    forall x | x in g.files[path] && x !in g.cache ensures !LiveElsewhere(g, n, x) {
      if f :| f in g.index && f != n && LastId(g.index[f], x).Some? {
        var k := LastIsEntry(g.index[f], x);
      }
    }
    ExtractedFits(g, n, path, g.files[path], mint);
  }

  lemma NextFileNumbered(g: Host, order: seq<string>, n: nat, list: seq<NamedId>)
    requires NumberedUpTo(g, order, n) && IndexedFrom(g, order, n) && n < |order| && AllDistinct(order)
    requires order[n] in g.files
    requires forall x :: x in list ==> x.name in g.files[order[n]]
    ensures var r := g.(fileIds := g.fileIds[order[n] := n], index := g.index[n := list]);
      NumberedUpTo(r, order, n + 1) && IndexedFrom(r, order, n + 1)
  {
    hide AllDistinct, IndexedFrom;
    var r := g.(fileIds := g.fileIds[order[n] := n], index := g.index[n := list]);
    NewInOrder(order, n);
    assert |r.fileIds| == n + 1;
    NextFileIndexed(g, order, n, list);
  }

  lemma NextFileIndexed(g: Host, order: seq<string>, n: nat, list: seq<NamedId>)
    requires IndexedFrom(g, order, n) && n < |order| && order[n] in g.files
    requires forall x :: x in list ==> x.name in g.files[order[n]]
    ensures IndexedFrom(g.(fileIds := g.fileIds[order[n] := n], index := g.index[n := list]), order, n + 1)
  {
    var r := g.(fileIds := g.fileIds[order[n] := n], index := g.index[n := list]);
    forall f | f in r.index ensures EntryFrom(r, order, n + 1, f) {
      assert f != n ==> EntryFrom(g, order, n, f);
    }
  }

  lemma NewInOrder(order: seq<string>, n: nat)
    requires n < |order| && AllDistinct(order)
    ensures order[n] !in order[..n] && order[..n + 1] == order[..n] + [order[n]]
    ensures forall k :: 0 <= k < n ==> order[k] != order[n]
  {
  }

  lemma TakeNextFile(h: Host, g: Host, order: seq<string>, n: nat, mint: Mint)
    requires TakenUpTo(h, g, order, n) && n < |order| && order[n] in h.files
    requires AllProper(mint) && FilesDisjoint(h.files) && AllDistinct(order)
    ensures var list := Extracted(g.cache, order[n], g.files[order[n]], mint);
      TakenUpTo(h, g.(fileIds := g.fileIds[order[n] := n], index := g.index[n := list]), order, n + 1)
  {
    hide Consistent, Known, AllProper, FilesDisjoint, AllDistinct, FitsIn, NumberedUpTo, IndexedFrom, Extracted;
    var list := Extracted(g.cache, order[n], g.files[order[n]], mint);
    NextFileFits(h, g, order, n, mint);
    ReplacingIsConsistent(g, n, list);
    ReplacingRemembers(g, n, list);
    var r, s := g.(index := g.index[n := list]), g.(fileIds := g.fileIds[order[n] := n], index := g.index[n := list]);
    NumberingIsNoIdentity(r, s);
    RemembersTrans(h.(index := map[]), g, r);
    RemembersTrans(h.(index := map[]), r, s);
    forall x | x in list ensures x.name in g.files[order[n]] {
    }
    NextFileNumbered(g, order, n, list);
  }

  lemma NumberingIsNoIdentity(h: Host, g: Host)
    requires g.index == h.index && g.cache == h.cache
    ensures Remembers(h, g) && (Consistent(h) ==> Consistent(g))
  {
    hide IsProperId;
    forall n, i ensures Known(g, n, i) <==> Known(h, n, i) {
      assert IsLiveAs(g, n, i) <==> IsLiveAs(h, n, i);
    }
  }

  lemma NothingTaken(h: Host, order: seq<string>, mint: Mint)
    requires Consistent(h.(index := map[]))
    ensures TakenUpTo(h, Renumbered(h, order[..0], mint), order, 0)
  {
    hide Known, IsProperId, Consistent;
    var g := h.(index := map[], fileIds := map[]);
    NumberingIsNoIdentity(h.(index := map[]), g);
    assert Renumbered(h, order[..0], mint) == g;
  }

  lemma {:induction false} RenumberedKeeps(h: Host, order: seq<string>, n: nat, mint: Mint)
    requires n <= |order| && Consistent(h.(index := map[])) && AllProper(mint) && FilesDisjoint(h.files)
    requires AllDistinct(order) && forall p :: p in order ==> p in h.files
    ensures TakenUpTo(h, Renumbered(h, order[..n], mint), order, n)
  {
    hide AllProper, FilesDisjoint, AllDistinct, Extracted, TakenUpTo, Consistent;
    if n == 0 {
      NothingTaken(h, order, mint);
    } else {
      RenumberedKeeps(h, order, n - 1, mint);
      assert order[..n][..n - 1] == order[..n - 1] && order[..n][n - 1] == order[n - 1];
      var g := Renumbered(h, order[..n - 1], mint);
      TakenFiles(h, g, order, n - 1);
      TakeNextFile(h, g, order, n - 1, mint);
    }
  }

  lemma TakenFiles(h: Host, g: Host, order: seq<string>, n: nat)
    requires TakenUpTo(h, g, order, n)
    ensures g.files == h.files
  {
  }

  /** Before the index is thrown away everything in it is cached. */
  lemma ClearedIndex(h: Host, indexed: seq<nat>)
    requires Valid(h) && forall f :: f in h.index ==> f in indexed
    ensures var g := h.(cache := CacheFiles(h, indexed));
      Consistent(g.(index := map[])) && Remembers(h, g.(index := map[]))
  {
    hide Known, CacheFiles, IsProperId, Consistent, CachedFrom;
    var g := h.(cache := CacheFiles(h, indexed));
    CacheFilesHolds(h, indexed);
    CachingMore(h, g.cache);
    forall f | f in g.index ensures CachedFrom(g.cache, g.index[f]) {
      assert IndexedIn(h, f) == g.index[f];
    }
    var none: map<nat, seq<NamedId>> := map[];
    ForgettingCached(g, none);
    RemembersTrans(h, g, g.(index := none));
  }

  lemma FullKeeps(h: Host, indexed: seq<nat>, order: seq<string>, mint: Mint)
    requires Valid(h) && AllProper(mint) && FilesDisjoint(h.files)
    requires (forall f :: f in h.index ==> f in indexed) && Enumerates(order, h.files.Keys)
    ensures Valid(FullRebuild(h, indexed, order, mint)) && Remembers(h, FullRebuild(h, indexed, order, mint))
  {
    hide Known, CacheFiles, Consistent, AllProper, FilesDisjoint, Renumbered, NumberedUpTo, IndexedFrom, Numbered;
    var g := h.(cache := CacheFiles(h, indexed));
    var r := Renumbered(g, order, mint);
    ClearedIndex(h, indexed);
    assert order[..|order|] == order;
    RenumberedKeeps(g, order, |order|, mint);
    NumberedUpToIsNumbered(r, order, |order|);
    RemembersTrans(h, g.(index := map[]), r);
    FlagsDoNotMatter(r, FullRebuild(h, indexed, order, mint));
    RemembersTrans(h, r, FullRebuild(h, indexed, order, mint));
  }

  // ---------------------------------------------------------------------------------------------
  // Whole runs
  // ---------------------------------------------------------------------------------------------

  /** What happens to a host. A file is set with its parsed content, or without if nothing could be parsed.
      A rebuild comes with the orders in which it happens to take things and the ids that extraction mints. */
  datatype Event =
    | SetContent(path: string, content: Option<seq<string>>)
    | Remove(path: string)
    | MarkDirty
    | Rebuild(indexed: seq<nat>, order: seq<string>, removedOrder: seq<string>, dirtyOrder: seq<string>, mint: Mint)

  function After(h: Host, e: Event): Host {
    match e
    case SetContent(path, content) =>
      h.(files := if content.Some? then h.files[path := content.value] else h.files, dirty := h.dirty + {path})
    case Remove(path) =>
      h.(files := h.files - {path}, dirty := h.dirty - {path}, removed := h.removed + {path})
    case MarkDirty => h.(needsFullRebuild := true)
    case Rebuild(indexed, order, removedOrder, dirtyOrder, mint) =>
      if h.needsFullRebuild then FullRebuild(h, indexed, order, mint)
      else IncrementalRebuild(h, removedOrder, dirtyOrder, mint)
  }

  /** A rebuild takes everything it has to take, extraction mints proper ids, no name is in two files at once,
      and no name moves into a dirty file before its id is cached. */
  ghost predicate Admissible(h: Host, e: Event) {
    e.Rebuild? ==>
      && AllProper(e.mint) && FilesDisjoint(h.files)
      && (h.needsFullRebuild ==> (forall f :: f in h.index ==> f in e.indexed) && Enumerates(e.order, h.files.Keys))
      && (!h.needsFullRebuild ==>
            Enumerates(e.removedOrder, h.removed) && Enumerates(e.dirtyOrder, h.dirty) && NoNameMoves(h))
  }

  lemma EventKeeps(h: Host, e: Event)
    requires Valid(h) && Admissible(h, e)
    ensures Valid(After(h, e)) && Remembers(h, After(h, e))
  {
    hide Valid, Remembers, FullRebuild, IncrementalRebuild, AllProper, FilesDisjoint, NoNameMoves, Enumerates;
    match e
    case Rebuild(indexed, order, removedOrder, dirtyOrder, mint) =>
      if h.needsFullRebuild {
        FullKeeps(h, indexed, order, mint);
      } else {
        IncrementalKeeps(h, removedOrder, dirtyOrder, mint);
      }
    case _ => FlagsDoNotMatter(h, After(h, e));
  }

  ghost function Run(events: seq<Event>): Host {
    if events == [] then NEW_HOST else After(Run(events[..|events| - 1]), events[|events| - 1])
  }

  ghost predicate AllAdmissible(events: seq<Event>) {
    forall n :: 0 <= n < |events| ==> Admissible(Run(events[..n]), events[n])
  }

  lemma NewHostIsValid()
    ensures Valid(NEW_HOST)
  {
  }

  lemma {:induction false} RunIsValid(events: seq<Event>, n: nat)
    requires AllAdmissible(events) && n <= |events|
    ensures Valid(Run(events[..n]))
  {
    hide Valid, Admissible, After;
    if n == 0 {
      NewHostIsValid();
    } else {
      RunIsValid(events, n - 1);
      assert events[..n][..n - 1] == events[..n - 1];
      assert Admissible(Run(events[..n - 1]), events[n - 1]);
      EventKeeps(Run(events[..n - 1]), events[n - 1]);
    }
  }

  lemma {:induction false} RunRemembers(events: seq<Event>, m: nat, n: nat)
    requires AllAdmissible(events) && m <= n <= |events|
    ensures Remembers(Run(events[..m]), Run(events[..n]))
    decreases n - m
  {
    hide Valid, Admissible, After, Known;
    if m < n {
      RunRemembers(events, m, n - 1);
      RunIsValid(events, n - 1);
      assert events[..n][..n - 1] == events[..n - 1];
      assert Admissible(Run(events[..n - 1]), events[n - 1]);
      EventKeeps(Run(events[..n - 1]), events[n - 1]);
      RemembersTrans(Run(events[..m]), Run(events[..n - 1]), Run(events[..n]));
    }
  }

  /** Over any admissible run, a name that is live at two times has the same element id at both, even if its
      file was removed and added again in between. */
  lemma IdsAreStable(events: seq<Event>, m: nat, n: nat, name: string, a: Id, b: Id)
    requires AllAdmissible(events) && m <= n <= |events|
    requires IsLiveAs(Run(events[..m]), name, a) && IsLiveAs(Run(events[..n]), name, b)
    ensures a == b
  {
    hide AllAdmissible, Run;
    RunRemembers(events, m, n);
    RunIsValid(events, n);
    assert Known(Run(events[..m]), name, a) && Known(Run(events[..n]), name, b);
  }

  // ---------------------------------------------------------------------------------------------
  // Exactly when a batch keeps every id
  // ---------------------------------------------------------------------------------------------

  /** No id that extraction would give is known for a name already. */
  ghost predicate MintsNew(h: Host, mint: Mint) {
    forall p, k, n, i :: Known(h, n, i) ==> mint(p, k) != i
  }

  /** Another file's numbering and symbols are not touched by refreshing a file. */
  lemma EntryStays(h: Host, path: string, mint: Mint, q: string)
    requires Numbered(h) && q in h.fileIds && q != path
    ensures var r := RefreshFile(h, path, mint);
      && Numbered(r) && r.files == h.files && q in r.fileIds && r.fileIds[q] == h.fileIds[q]
      && IndexedIn(r, r.fileIds[q]) == IndexedIn(h, h.fileIds[q])
  {
    hide CacheIds, Extracted;
    IdentifiedIsNumbered(h, path);
    var g := Identified(h, path);
    if path in g.files {
      var list := Extracted(g.cache, path, g.files[path], mint);
      ReplacingIsNumbered(g, path, list);
      EntryElsewhere(g, path, list, q);
    }
  }

  lemma IdentifiedIsNumbered(h: Host, path: string)
    requires Numbered(h)
    ensures var g := Identified(h, path);
      && Numbered(g) && g.files == h.files && g.index == h.index
      && forall q :: q in h.fileIds ==> q in g.fileIds && g.fileIds[q] == h.fileIds[q]
  {
    hide CacheIds;
    var g := Identified(h, path);
    if path !in h.fileIds {
      assert |g.fileIds| == |h.fileIds| + 1;
      forall f | f in g.index ensures exists p :: p in g.fileIds && g.fileIds[p] == f {
        var p :| p in h.fileIds && h.fileIds[p] == f;
        assert g.fileIds[p] == f;
      }
    }
  }

  lemma {:induction false} EntryStaysThroughout(h: Host, paths: seq<string>, mint: Mint, q: string)
    requires Numbered(h) && q in h.fileIds && q !in paths
    ensures var r := RefreshFiles(h, paths, mint);
      q in r.fileIds && IndexedIn(r, r.fileIds[q]) == IndexedIn(h, h.fileIds[q])
    decreases |paths|
  {
    hide Numbered, RefreshFile, IndexedIn;
    if paths != [] {
      EntryStays(h, paths[0], mint, q);
      EntryStaysThroughout(RefreshFile(h, paths[0], mint), paths[1..], mint, q);
    }
  }

  /** The first dirty file gives a name that is not cached in time a new id. */
  lemma FirstIsMinted(h: Host, path: string, mint: Mint, n: string) returns (k: nat)
    requires Valid(h) && path in h.files && n in h.files[path] && !CachedBefore(h, path, n)
    ensures var r := RefreshFile(h, path, mint);
      Numbered(r) && path in r.fileIds && LastId(IndexedIn(r, r.fileIds[path]), n) == Some(mint(path, k))
  {
    hide Consistent, CacheIds, IsProperId, LastId;
    var g := Identified(h, path);
    assert n !in g.cache by {
      NotCachedByItself(h, path, n);
    }
    k := ExtractedLast(g.cache, path, h.files[path], mint, n);
    var list := Extracted(g.cache, path, g.files[path], mint);
    IdentifiedIsNumbered(h, path);
    ReplacingIsNumbered(g, path, list);
  }

  lemma NotCachedByItself(h: Host, path: string, n: string)
    requires Valid(h) && !CachedBefore(h, path, n)
    ensures n !in Identified(h, path).cache
  {
    hide Consistent, Numbered, CacheIds, LastId, IsProperId;
    if path in h.fileIds {
      IndexedAreProper(h, h.fileIds[path]);
      CacheIdsAt(h.cache, IndexedIn(h, h.fileIds[path]), n);
    }
  }

  /** A set in an order that begins with one of its elements. */
  lemma {:induction false} OrderFrom(paths: set<string>, first: string) returns (order: seq<string>)
    requires first in paths
    ensures Enumerates(order, paths) && order != [] && order[0] == first
    decreases paths
  {
    if paths == {first} {
      order := [first];
    } else {
      assert paths == {first} + (paths - {first});
      var next :| next in paths - {first};
      var rest := OrderFrom(paths - {first}, next);
      order := [first] + rest;
    }
  }

  /** What every rebuild should do: keep the host consistent and every known id known. */
  ghost predicate KeepsIds(h: Host, removedOrder: seq<string>, dirtyOrder: seq<string>, mint: Mint) {
    var r := IncrementalRebuild(h, removedOrder, dirtyOrder, mint);
    Valid(r) && Remembers(h, r)
  }

  lemma MovedNameLosesId(h: Host, removedOrder: seq<string>, dirtyOrder: seq<string>, mint: Mint, p: string, n: string)
    requires Valid(h) && MintsNew(h, mint) && MovesUncached(h, p, n)
    requires Enumerates(removedOrder, h.removed) && Enumerates(dirtyOrder, h.dirty) && dirtyOrder != []
    requires dirtyOrder[0] == p
    ensures !KeepsIds(h, removedOrder, dirtyOrder, mint)
  {
    hide Numbered, Consistent, DropFiles, RefreshFile, Known, HasName, IsProperId, Enumerates, LastId;
    var g := DropFiles(h, removedOrder);
    DropFilesKeep(h, removedOrder);
    NotCachedAfterDrops(h, removedOrder, p, n);
    var k := FirstIsMinted(g, p, mint, n);
    var first := RefreshFile(g, p, mint);
    assert p !in dirtyOrder[1..] by {
      FirstOnlyOnce(dirtyOrder, h.dirty);
    }
    EntryStaysThroughout(first, dirtyOrder[1..], mint, p);
    var r := IncrementalRebuild(h, removedOrder, dirtyOrder, mint);
    assert r == RefreshFiles(first, dirtyOrder[1..], mint).(removed := {}, dirty := {});
    IndexedAreKnown(r, r.fileIds[p]);
    assert IndexedIn(r, r.fileIds[p]) == IndexedIn(first, first.fileIds[p]);
    var i := MovedIsKnown(h, p, n);
    TwoIdsBreak(h, r, n, i, mint(p, k));
  }

  lemma TwoIdsBreak(h: Host, r: Host, n: string, i: Id, j: Id)
    requires Known(h, n, i) && Known(r, n, j) && i != j
    ensures !(Valid(r) && Remembers(h, r))
  {
    hide Known, IsProperId;
  }

  lemma FirstOnlyOnce(order: seq<string>, paths: set<string>)
    requires Enumerates(order, paths) && order != []
    ensures order[0] !in order[1..]
  {
  }

  lemma MovedIsKnown(h: Host, p: string, n: string) returns (i: Id)
    requires MovesUncached(h, p, n)
    ensures Known(h, n, i)
  {
    hide Known, LastId;
    var q :| q in h.fileIds && q != p && q !in h.removed && HasName(IndexedIn(h, h.fileIds[q]), n);
    i := LastId(IndexedIn(h, h.fileIds[q]), n).value;
    IndexedAreKnown(h, h.fileIds[q]);
  }

  lemma NotCachedAfterDrops(h: Host, removedOrder: seq<string>, p: string, n: string)
    requires Valid(h) && MovesUncached(h, p, n) && Enumerates(removedOrder, h.removed)
    ensures !CachedBefore(DropFiles(h, removedOrder), p, n)
  {
    hide Valid, DropFiles, HasName, AllDistinct;
    DropFilesKeep(h, removedOrder);
    DroppedNames(h, removedOrder, n);
    NoNameInEmpty(n);
  }

  /** A batch keeps every known id, in whatever order the dirty files are drained, exactly when no name moves into
      a dirty file before its id is cached. */
  lemma BatchKeepsIds(h: Host, removedOrder: seq<string>, mint: Mint)
    requires Valid(h) && AllProper(mint) && MintsNew(h, mint) && FilesDisjoint(h.files)
    requires Enumerates(removedOrder, h.removed)
    ensures (forall dirtyOrder :: Enumerates(dirtyOrder, h.dirty) ==> KeepsIds(h, removedOrder, dirtyOrder, mint))
            <==> NoNameMoves(h)
  {
    hide Valid, AllProper, MintsNew, FilesDisjoint, Enumerates, IncrementalRebuild, Remembers, MovesUncached;
    if NoNameMoves(h) {
      forall dirtyOrder | Enumerates(dirtyOrder, h.dirty) ensures KeepsIds(h, removedOrder, dirtyOrder, mint) {
        IncrementalKeeps(h, removedOrder, dirtyOrder, mint);
      }
    } else {
      var p, n :| MovesUncached(h, p, n);
      MovedIsDirty(h, p, n);
      var order := OrderFrom(h.dirty, p);
      MovedNameLosesId(h, removedOrder, order, mint, p, n);
    }
  }

  lemma MovedIsDirty(h: Host, p: string, n: string)
    requires MovesUncached(h, p, n)
    ensures p in h.dirty
  {
  }

  /** Why names must not move within a batch: the receiving file, if it is taken first, gives the name a new id,
      while the id the name had is cached only afterwards. */
  lemma MovedNameIsRenamed(h: Host, source: string, target: string, name: string, id: Id, mint: Mint)
    requires Valid(h) && source in h.fileIds && target !in h.fileIds && name !in h.cache
    requires source in h.files && h.files[source] == [] && target in h.files && h.files[target] == [name]
    requires IndexedIn(h, h.fileIds[source]) == [NamedId(name, id)] && IsProperId(id)
    ensures IsLiveAs(IncrementalRebuild(h, [], [target, source], mint), name, mint(target, 0))
    ensures IsLiveAs(IncrementalRebuild(h, [], [source, target], mint), name, id)
  {
    MovedForward(h, source, target, name, mint);
    MovedBackward(h, source, target, name, id, mint);
  }

  lemma MovedForward(h: Host, source: string, target: string, name: string, mint: Mint)
    requires Numbered(h) && source in h.fileIds && target !in h.fileIds && name !in h.cache
    requires source in h.files && h.files[source] == [] && target in h.files && h.files[target] == [name]
    ensures IsLiveAs(IncrementalRebuild(h, [], [target, source], mint), name, mint(target, 0))
  {
    var g := RefreshFile(h, target, mint);
    var file := |h.fileIds|;
    assert g.index[file][0] == NamedId(name, mint(target, 0));
    var r := RefreshFile(g, source, mint);
    assert r.index[file] == g.index[file];
    assert [target, source][1..] == [source] && [source][1..] == [];
    assert RefreshFiles(g, [source], mint) == RefreshFiles(r, [], mint);
    assert r.index[file] == [NamedId(name, mint(target, 0))] && r.index[file][1..] == [];
    assert LastId(r.index[file], name) == Some(mint(target, 0));
  }

  lemma MovedBackward(h: Host, source: string, target: string, name: string, id: Id, mint: Mint)
    requires Numbered(h) && source in h.fileIds && target !in h.fileIds
    requires source in h.files && h.files[source] == [] && target in h.files && h.files[target] == [name]
    requires IndexedIn(h, h.fileIds[source]) == [NamedId(name, id)] && IsProperId(id)
    ensures IsLiveAs(IncrementalRebuild(h, [], [source, target], mint), name, id)
  {
    var list := [NamedId(name, id)];
    assert list[1..] == [] && CacheIds(h.cache, list) == CacheIds(h.cache[name := id], []);
    var g := RefreshFile(h, source, mint);
    assert g.cache == h.cache[name := id];
    var r := RefreshFile(g, target, mint);
    var file := |h.fileIds|;
    assert r.index[file][0] == NamedId(name, id);
    assert [source, target][1..] == [target] && [target][1..] == [];
    assert RefreshFiles(g, [target], mint) == RefreshFiles(r, [], mint);
    assert r.index[file] == [NamedId(name, id)];
    assert LastId(r.index[file], name) == Some(id);
  }

  // ---------------------------------------------------------------------------------------------
  // The host in place
  // ---------------------------------------------------------------------------------------------

  class AnalysisHost {
    var files: map<string, seq<string>>
    var index: map<nat, seq<NamedId>>
    var fileIdMap: map<string, nat>
    var dirtyFiles: set<string>
    var removedFiles: set<string>
    var needsFullRebuild: bool
    var elementIdCache: map<string, Id>

    function State(): Host
      reads this
    {
      Host(files, index, fileIdMap, dirtyFiles, removedFiles, needsFullRebuild, elementIdCache)
    }

    constructor ()
      ensures State() == NEW_HOST
    {
      files, index, fileIdMap, dirtyFiles, removedFiles := map[], map[], map[], {}, {};
      needsFullRebuild, elementIdCache := true, map[];
    }

    method SetFileContent(path: string, content: Option<seq<string>>)
      modifies this
      ensures State() == After(old(State()), SetContent(path, content))
    {
      if content.Some? {
        files := files[path := content.value];
      }
      dirtyFiles := dirtyFiles + {path};
    }

    method RemoveFile(path: string)
      modifies this
      ensures State() == After(old(State()), Remove(path))
    {
      files := files - {path};
      dirtyFiles := dirtyFiles - {path};
      removedFiles := removedFiles + {path};
    }

    method MarkForFullRebuild()
      modifies this
      ensures State() == After(old(State()), MarkDirty)
    {
      needsFullRebuild := true;
    }

    /** Keeps the ids of one file's indexed symbols. */
    method KeepIds(file: nat)
      modifies `elementIdCache
      ensures elementIdCache == CacheIds(old(elementIdCache), IndexedIn(State(), file))
    {
      var list := if file in index then index[file] else [];
      for i := 0 to |list|
        invariant CacheIds(elementIdCache, list[i..]) == CacheIds(old(elementIdCache), list)
      {
        assert list[i..][0] == list[i] && list[i..][1..] == list[i + 1..];
        if list[i].id != "" && !Names.StartsWith(list[i].id, "00000000-0000-0000-0000") {
          elementIdCache := elementIdCache[list[i].name := list[i].id];
        }
      }
    }

    method DropRemovedFile(path: string)
      modifies this
      ensures State() == DropFile(old(State()), path)
    {
      if path in fileIdMap {
        KeepIds(fileIdMap[path]);
        index := index - {fileIdMap[path]};
      }
    }

    method RefreshDirtyFile(path: string, mint: Mint)
      modifies this
      ensures State() == RefreshFile(old(State()), path, mint)
    {
      if path in fileIdMap {
        KeepIds(fileIdMap[path]);
      } else {
        fileIdMap := fileIdMap[path := |fileIdMap|];
      }
      if path in files {
        var extracted := Extracted(elementIdCache, path, files[path], mint);
        index := index[fileIdMap[path] := extracted];
      }
    }

    /** Drains the removed files, then the dirty ones. */
    method RebuildIncrementally(mint: Mint) returns (ghost removedOrder: seq<string>, ghost dirtyOrder: seq<string>)
      modifies this
      ensures Enumerates(removedOrder, old(removedFiles)) && Enumerates(dirtyOrder, old(dirtyFiles))
      ensures State() == IncrementalRebuild(old(State()), removedOrder, dirtyOrder, mint)
    {
      hide DropFile, RefreshFile;
      ghost var h := State();
      removedOrder, dirtyOrder := [], [];
      while removedFiles != {}
        invariant Drained(removedOrder, h.removed, removedFiles)
        invariant State() == DropFiles(h, removedOrder).(removed := removedFiles)
        decreases removedFiles
      {
        var path :| path in removedFiles;
        DropFilesSnoc(h, removedOrder, path);
        DropIgnoresFlags(DropFiles(h, removedOrder), removedFiles, path);
        DrainedNext(removedOrder, h.removed, removedFiles, path);
        DropRemovedFile(path);
        removedOrder := removedOrder + [path];
        removedFiles := removedFiles - {path};
      }
      ghost var g := DropFiles(h, removedOrder);
      DropKeepsFlags(h, removedOrder);
      while dirtyFiles != {}
        invariant Drained(dirtyOrder, h.dirty, dirtyFiles)
        invariant State() == RefreshFiles(g, dirtyOrder, mint).(removed := {}, dirty := dirtyFiles)
        decreases dirtyFiles
      {
        var path :| path in dirtyFiles;
        RefreshFilesSnoc(g, dirtyOrder, path, mint);
        RefreshIgnoresFlags(RefreshFiles(g, dirtyOrder, mint), dirtyFiles, path, mint);
        DrainedNext(dirtyOrder, h.dirty, dirtyFiles, path);
        RefreshDirtyFile(path, mint);
        dirtyOrder := dirtyOrder + [path];
        dirtyFiles := dirtyFiles - {path};
      }
    }

    /** Keeps the ids of everything that is indexed. */
    method KeepAllIds() returns (ghost indexed: seq<nat>)
      modifies `elementIdCache
      ensures forall f :: f in index ==> f in indexed
      ensures elementIdCache == CacheFiles(old(State()), indexed)
    {
      hide CacheIds;
      ghost var h := State();
      indexed := [];
      var left := index.Keys;
      while left != {}
        invariant forall f :: f in index ==> f in indexed || f in left
        invariant elementIdCache == CacheFiles(h, indexed)
        decreases left
      {
        var f :| f in left;
        KeepIds(f);
        assert (indexed + [f])[..|indexed|] == indexed;
        indexed := indexed + [f];
        left := left - {f};
      }
    }

    /** Numbers and extracts every file anew. */
    method NumberFiles(mint: Mint) returns (ghost order: seq<string>)
      modifies `index, `fileIdMap
      ensures Enumerates(order, files.Keys)
      ensures State() == Renumbered(old(State()), order, mint)
    {
      hide Extracted, AllDistinct;
      ghost var g := State();
      order := [];
      NothingDrained(files.Keys);
      index, fileIdMap := map[], map[];
      var paths := files.Keys;
      var number := 0;
      while paths != {}
        invariant Drained(order, g.files.Keys, paths) && number == |order|
        invariant State() == Renumbered(g, order, mint)
        decreases paths
      {
        var path :| path in paths;
        DrainedNext(order, g.files.Keys, paths, path);
        assert (order + [path])[..|order|] == order;
        fileIdMap := fileIdMap[path := number];
        index := index[number := Extracted(elementIdCache, path, files[path], mint)];
        number := number + 1;
        order := order + [path];
        paths := paths - {path};
      }
    }

    /** Keeps all ids before the index is built anew. */
    method RebuildFully(mint: Mint) returns (ghost indexed: seq<nat>, ghost order: seq<string>)
      modifies this
      ensures (forall f :: f in old(index) ==> f in indexed) && Enumerates(order, old(files).Keys)
      ensures State() == FullRebuild(old(State()), indexed, order, mint)
    {
      hide CacheFiles, Renumbered, Enumerates;
      indexed := KeepAllIds();
      order := NumberFiles(mint);
      needsFullRebuild, dirtyFiles, removedFiles := false, {}, {};
    }

    /** One rebuild is one event of a run. */
    method RebuildIndex(mint: Mint) returns (ghost e: Event)
      modifies this
      ensures e.Rebuild? && e.mint == mint && State() == After(old(State()), e)
      ensures AllProper(mint) && FilesDisjoint(old(files)) && (old(needsFullRebuild) || NoNameMoves(old(State()))) ==>
                Admissible(old(State()), e)
    {
      ghost var indexed: seq<nat> := [];
      ghost var order: seq<string>, removedOrder: seq<string>, dirtyOrder: seq<string> := [], [], [];
      if needsFullRebuild {
        indexed, order := RebuildFully(mint);
      } else {
        removedOrder, dirtyOrder := RebuildIncrementally(mint);
      }
      e := Rebuild(indexed, order, removedOrder, dirtyOrder, mint);
    }
  }

  /** What has been taken from a set, in order, and what is left of it. */
  ghost predicate Drained(order: seq<string>, all: set<string>, left: set<string>) {
    AllDistinct(order) && left <= all && forall p :: p in order <==> p in all && p !in left
  }

  lemma NothingDrained(all: set<string>)
    ensures Drained([], all, all)
  {
  }

  lemma DrainedNext(order: seq<string>, all: set<string>, left: set<string>, path: string)
    requires Drained(order, all, left) && path in left
    ensures Drained(order + [path], all, left - {path})
  {
  }

  lemma {:induction false} DropFilesSnoc(h: Host, paths: seq<string>, path: string)
    ensures DropFiles(h, paths + [path]) == DropFile(DropFiles(h, paths), path)
    decreases |paths|
  {
    hide DropFile;
    if paths == [] {
      assert paths + [path] == [path] && [path][1..] == [];
    } else {
      assert (paths + [path])[0] == paths[0] && (paths + [path])[1..] == paths[1..] + [path];
      DropFilesSnoc(DropFile(h, paths[0]), paths[1..], path);
    }
  }

  lemma {:induction false} RefreshFilesSnoc(h: Host, paths: seq<string>, path: string, mint: Mint)
    ensures RefreshFiles(h, paths + [path], mint) == RefreshFile(RefreshFiles(h, paths, mint), path, mint)
    decreases |paths|
  {
    hide RefreshFile;
    if paths == [] {
      assert paths + [path] == [path] && [path][1..] == [];
    } else {
      assert (paths + [path])[0] == paths[0] && (paths + [path])[1..] == paths[1..] + [path];
      RefreshFilesSnoc(RefreshFile(h, paths[0], mint), paths[1..], path, mint);
    }
  }

  lemma DropIgnoresFlags(h: Host, removed: set<string>, path: string)
    ensures DropFile(h.(removed := removed), path) == DropFile(h, path).(removed := removed)
  {
    hide CacheIds;
  }

  lemma RefreshIgnoresFlags(h: Host, dirty: set<string>, path: string, mint: Mint)
    ensures RefreshFile(h.(removed := {}, dirty := dirty), path, mint) ==
              RefreshFile(h, path, mint).(removed := {}, dirty := dirty)
  {
    hide CacheIds, Extracted, Identified;
    IdentifiedIgnoresFlags(h, dirty, path);
  }

  lemma IdentifiedIgnoresFlags(h: Host, dirty: set<string>, path: string)
    ensures Identified(h.(removed := {}, dirty := dirty), path) == Identified(h, path).(removed := {}, dirty := dirty)
    ensures Identified(h, path).files == h.files
  {
    hide CacheIds;
  }

  lemma {:induction false} DropKeepsFlags(h: Host, paths: seq<string>)
    ensures DropFiles(h, paths).dirty == h.dirty
    decreases |paths|
  {
    if paths != [] {
      DropKeepsFlags(DropFile(h, paths[0]), paths[1..]);
    }
  }
}
