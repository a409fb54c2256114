/** The symbol index: symbols in slots that are never reclaimed, and the maps that lead to them. */
module Indexing {
  import opened Wrappers
  import opened ElementKinds
  import opened IndexData
  import opened Scopes

  type FileId = nat

  datatype IndexState = IndexState(
    symbols: seq<IndexedSymbol>,
    byQualifiedName: map<string, nat>,
    bySimpleName: map<string, seq<nat>>,
    byShortName: map<string, seq<nat>>,
    byFile: map<FileId, seq<nat>>,
    definitions: map<string, nat>)

  const EMPTY := IndexState([], map[], map[], map[], map[], map[])

  // ---------------------------------------------------------------------------------------------
  // Adding and removing files
  // ---------------------------------------------------------------------------------------------

  function Get<K>(m: map<K, seq<nat>>, k: K): seq<nat> {
    if k in m then m[k] else []
  }

  function Push<K>(m: map<K, seq<nat>>, k: K, i: nat): map<K, seq<nat>> {
    m[k := Get(m, k) + [i]]
  }

  function Retain(s: seq<nat>, gone: nat): seq<nat> {
    if s == [] then [] else (if s[0] == gone then [] else [s[0]]) + Retain(s[1..], gone)
  }

  /** Takes a slot off a list, and the list off the map when it becomes empty. */
  function Take<K>(m: map<K, seq<nat>>, k: K, i: nat): map<K, seq<nat>> {
    if k !in m then m
    else
      var rest := Retain(m[k], i);
      if rest == [] then m - {k} else m[k := rest]
  }

  function AddOne(s: IndexState, symbol: IndexedSymbol): IndexState {
    var i := |s.symbols|;
    IndexState(
      s.symbols + [symbol],
      s.byQualifiedName[symbol.qualifiedName := i],
      Push(s.bySimpleName, symbol.name, i),
      if symbol.shortName.Some? then Push(s.byShortName, symbol.shortName.value, i) else s.byShortName,
      s.byFile,
      if IsDefinition(symbol.kind) then s.definitions[symbol.qualifiedName := i] else s.definitions)
  }

  function AddAll(s: IndexState, list: seq<IndexedSymbol>): IndexState {
    if list == [] then s else AddOne(AddAll(s, list[..|list| - 1]), list[|list| - 1])
  }

  function SlotRange(first: nat, count: nat): (r: seq<nat>)
    ensures |r| == count && forall k :: 0 <= k < count ==> r[k] == first + k
  {
    seq(count, k requires 0 <= k < count => first + k)
  }

  function WithFile(s: IndexState, file: FileId, list: seq<IndexedSymbol>): IndexState {
    var cleared := WithoutFile(s, file);
    var added := AddAll(cleared, list);
    added.(byFile := added.byFile[file := SlotRange(|cleared.symbols|, |list|)])
  }

  function RemoveSlot(s: IndexState, i: nat): IndexState {
    if i >= |s.symbols| then s
    else
      var symbol := s.symbols[i];
      s.(byQualifiedName := s.byQualifiedName - {symbol.qualifiedName},
         definitions := s.definitions - {symbol.qualifiedName},
         bySimpleName := Take(s.bySimpleName, symbol.name, i),
         byShortName :=
             if symbol.shortName.Some? then Take(s.byShortName, symbol.shortName.value, i) else s.byShortName)
  }

  function RemoveSlots(s: IndexState, slots: seq<nat>): IndexState
    decreases |slots|
  {
    if slots == [] then s else RemoveSlots(RemoveSlot(s, slots[0]), slots[1..])
  }

  function WithoutFile(s: IndexState, file: FileId): IndexState {
    if file !in s.byFile then s else RemoveSlots(s.(byFile := s.byFile - {file}), s.byFile[file])
  }

  // ---------------------------------------------------------------------------------------------
  // Lookups
  // ---------------------------------------------------------------------------------------------

  function SymbolAt(s: IndexState, m: map<string, nat>, name: string): Option<IndexedSymbol> {
    if name in m && m[name] < |s.symbols| then Some(s.symbols[m[name]]) else None
  }

  function LookupQualified(s: IndexState, name: string): Option<IndexedSymbol> {
    SymbolAt(s, s.byQualifiedName, name)
  }

  function LookupDefinition(s: IndexState, name: string): Option<IndexedSymbol> {
    SymbolAt(s, s.definitions, name)
  }

  function SymbolsIn(s: IndexState, slots: seq<nat>): seq<IndexedSymbol> {
    if slots == [] then []
    else (if slots[0] < |s.symbols| then [s.symbols[slots[0]]] else []) + SymbolsIn(s, slots[1..])
  }

  function SymbolsInFile(s: IndexState, file: FileId): seq<IndexedSymbol> {
    SymbolsIn(s, Get(s.byFile, file))
  }

  function LookupByShortName(s: IndexState, name: string): seq<IndexedSymbol> {
    SymbolsIn(s, Get(s.byShortName, name))
  }

  predicate HasNamed(list: seq<IndexedSymbol>, name: string) {
    exists k :: 0 <= k < |list| && list[k].qualifiedName == name
  }

  /** A list extended by the symbols that it does not hold yet. */
  function Merged(list: seq<IndexedSymbol>, more: seq<IndexedSymbol>): seq<IndexedSymbol>
    decreases |more|
  {
    if more == [] then list
    else Merged(if HasNamed(list, more[0].qualifiedName) then list else list + [more[0]], more[1..])
  }

  function LookupSimple(s: IndexState, name: string): seq<IndexedSymbol> {
    Merged(SymbolsIn(s, Get(s.bySimpleName, name)), LookupByShortName(s, name))
  }

  function Len(s: IndexState): nat {
    |s.byQualifiedName|
  }

  // ---------------------------------------------------------------------------------------------
  // The plain view: live symbols with their files, in the order they came
  // ---------------------------------------------------------------------------------------------

  datatype Entry = Entry(slot: nat, file: FileId, symbol: IndexedSymbol)

  /** What a list of the index is kept for. */
  datatype Key = OfFile(file: FileId) | OfName(name: string) | OfShortName(shortName: string)

  predicate HasKey(file: FileId, symbol: IndexedSymbol, key: Key) {
    match key
    case OfFile(f) => file == f
    case OfName(n) => symbol.name == n
    case OfShortName(n) => symbol.shortName == Some(n)
  }

  function Slots(entries: seq<Entry>, key: Key): seq<nat> {
    if entries == [] then []
    else (if HasKey(entries[0].file, entries[0].symbol, key) then [entries[0].slot] else []) + Slots(entries[1..], key)
  }

  /** The list that the index keeps for a key. */
  function ListFor(s: IndexState, key: Key): seq<nat> {
    match key
    case OfFile(f) => Get(s.byFile, f)
    case OfName(n) => Get(s.bySimpleName, n)
    case OfShortName(n) => Get(s.byShortName, n)
  }

  ghost predicate InSlots(s: IndexState, entries: seq<Entry>) {
    && (forall k :: 0 <= k < |entries| ==>
          entries[k].slot < |s.symbols| && s.symbols[entries[k].slot] == entries[k].symbol)
    && Ascends(entries)
  }

  ghost predicate Ascends(entries: seq<Entry>) {
    forall i, j :: 0 <= i < j < |entries| ==> entries[i].slot < entries[j].slot
  }

  ghost predicate ListsAgree(s: IndexState, entries: seq<Entry>) {
    forall key :: ListFor(s, key) == Slots(entries, key)
  }

  /** The entries are in their slots, and every list holds exactly the entries of its key, in order. */
  ghost predicate Represents(s: IndexState, entries: seq<Entry>) {
    InSlots(s, entries) && ListsAgree(s, entries)
  }

  function Without(entries: seq<Entry>, file: FileId): seq<Entry> {
    if entries == [] then []
    else (if entries[0].file == file then [] else [entries[0]]) + Without(entries[1..], file)
  }

  function NewEntries(first: nat, file: FileId, list: seq<IndexedSymbol>): (r: seq<Entry>)
    ensures |r| == |list| && forall k :: 0 <= k < |r| ==> r[k] == Entry(first + k, file, list[k])
  {
    seq(|list|, k requires 0 <= k < |list| => Entry(first + k, file, list[k]))
  }

  // ---------------------------------------------------------------------------------------------
  // Lists of slots
  // ---------------------------------------------------------------------------------------------

  lemma {:induction false} SlotsConcat(a: seq<Entry>, b: seq<Entry>, key: Key)
    ensures Slots(a + b, key) == Slots(a, key) + Slots(b, key)
  {
    hide HasKey;
    if a == [] {
      assert a + b == b;
    } else {
      assert (a + b)[0] == a[0] && (a + b)[1..] == a[1..] + b;
      SlotsConcat(a[1..], b, key);
    }
  }

  lemma {:induction false} SlotsMembers(entries: seq<Entry>, key: Key, i: nat)
    ensures i in Slots(entries, key) <==>
            exists k :: 0 <= k < |entries| && entries[k].slot == i && HasKey(entries[k].file, entries[k].symbol, key)
  {
    if entries != [] {
      SlotsMembers(entries[1..], key, i);
      assert forall k :: 1 <= k < |entries| ==> entries[k] == entries[1..][k - 1];
      assert forall k :: 0 <= k < |entries[1..]| ==> entries[1..][k] == entries[k + 1];
    }
  }

  // ---------------------------------------------------------------------------------------------
  // Adding
  // ---------------------------------------------------------------------------------------------

  /** One added symbol joins the lists of its names; file lists follow when the whole file is in. */
  lemma AddOneLists(s: IndexState, entries: seq<Entry>, file: FileId, symbol: IndexedSymbol, key: Key)
    requires !key.OfFile? && ListFor(s, key) == Slots(entries, key)
    ensures ListFor(AddOne(s, symbol), key) == Slots(entries + [Entry(|s.symbols|, file, symbol)], key)
  {
    var e := Entry(|s.symbols|, file, symbol);
    SlotsConcat(entries, [e], key);
  }

  lemma AddOneInSlots(s: IndexState, entries: seq<Entry>, file: FileId, symbol: IndexedSymbol)
    requires InSlots(s, entries)
    ensures InSlots(AddOne(s, symbol), entries + [Entry(|s.symbols|, file, symbol)])
  {
  }

  /** What holds while a file is being added: everything but the file lists. */
  ghost predicate Adding(s: IndexState, entries: seq<Entry>, files: map<FileId, seq<nat>>) {
    && InSlots(s, entries) && s.byFile == files
    && (forall key: Key :: !key.OfFile? ==> ListFor(s, key) == Slots(entries, key))
  }

  lemma AddOneKeepsAdding(s: IndexState, entries: seq<Entry>, files: map<FileId, seq<nat>>, file: FileId,
          symbol: IndexedSymbol)
    requires Adding(s, entries, files)
    ensures Adding(AddOne(s, symbol), entries + [Entry(|s.symbols|, file, symbol)], files)
  {
    AddOneInSlots(s, entries, file, symbol);
    forall key: Key | !key.OfFile?
      ensures ListFor(AddOne(s, symbol), key) == Slots(entries + [Entry(|s.symbols|, file, symbol)], key)
    {
      AddOneLists(s, entries, file, symbol, key);
    }
  }

  lemma {:induction false} AddAllKeepsAdding(s: IndexState, entries: seq<Entry>, files: map<FileId, seq<nat>>,
          file: FileId, list: seq<IndexedSymbol>)
    requires Adding(s, entries, files)
    ensures Adding(AddAll(s, list), entries + NewEntries(|s.symbols|, file, list), files)
    ensures |AddAll(s, list).symbols| == |s.symbols| + |list|
  {
    hide Adding;
    var added := NewEntries(|s.symbols|, file, list);
    if list == [] {
      assert entries + added == entries;
    } else {
      var n := |list| - 1;
      var before := NewEntries(|s.symbols|, file, list[..n]);
      assert added == before + [Entry(|s.symbols| + n, file, list[n])];
      assert (entries + before) + [Entry(|s.symbols| + n, file, list[n])] == entries + added;
      AddAllKeepsAdding(s, entries, files, file, list[..n]);
      AddOneKeepsAdding(AddAll(s, list[..n]), entries + before, files, file, list[n]);
    }
  }

  lemma {:induction false} NewEntriesSlots(first: nat, file: FileId, list: seq<IndexedSymbol>, f: FileId)
    ensures Slots(NewEntries(first, file, list), OfFile(f)) == if f == file then SlotRange(first, |list|) else []
    decreases |list|
  {
    hide NewEntries, SlotRange;
    if list == [] {
      assert NewEntries(first, file, list) == [] && SlotRange(first, 0) == [];
    } else {
      NewEntriesSlots(first + 1, file, list[1..], f);
      NewEntriesNext(first, file, list);
      assert SlotRange(first, |list|) == [first] + SlotRange(first + 1, |list| - 1);
    }
  }

  lemma NewEntriesNext(first: nat, file: FileId, list: seq<IndexedSymbol>)
    requires list != []
    ensures NewEntries(first, file, list)[0] == Entry(first, file, list[0])
    ensures NewEntries(first, file, list)[1..] == NewEntries(first + 1, file, list[1..])
  {
  }

  // ---------------------------------------------------------------------------------------------
  // Removing
  // ---------------------------------------------------------------------------------------------

  predicate SlotHasKey(symbols: seq<IndexedSymbol>, i: nat, key: Key) {
    i < |symbols| && (match key
                      case OfFile(_) => false
                      case OfName(n) => symbols[i].name == n
                      case OfShortName(n) => symbols[i].shortName == Some(n))
  }

  /** A list without the removed slots that belong to its key. */
  function Remaining(symbols: seq<IndexedSymbol>, list: seq<nat>, gone: seq<nat>, key: Key): seq<nat> {
    if list == [] then []
    else (if list[0] in gone && SlotHasKey(symbols, list[0], key) then [] else [list[0]])
         + Remaining(symbols, list[1..], gone, key)
  }

  lemma {:induction false} RemainingOfNone(symbols: seq<IndexedSymbol>, list: seq<nat>, key: Key)
    ensures Remaining(symbols, list, [], key) == list
  {
    if list != [] {
      RemainingOfNone(symbols, list[1..], key);
    }
  }

  lemma {:induction false} RetainIsRemaining(symbols: seq<IndexedSymbol>, list: seq<nat>, i: nat, key: Key)
    ensures Remaining(symbols, list, [i], key) == if SlotHasKey(symbols, i, key) then Retain(list, i) else list
  {
    if list != [] {
      RetainIsRemaining(symbols, list[1..], i, key);
    }
  }

  lemma {:induction false} RemainingStep(symbols: seq<IndexedSymbol>, list: seq<nat>, gone: seq<nat>, key: Key)
    requires gone != []
    ensures Remaining(symbols, Remaining(symbols, list, [gone[0]], key), gone[1..], key) ==
              Remaining(symbols, list, gone, key)
  {
    if list != [] {
      RemainingStep(symbols, list[1..], gone, key);
      assert gone == [gone[0]] + gone[1..];
      var first, rest := Remaining(symbols, list, [gone[0]], key), Remaining(symbols, list[1..], [gone[0]], key);
      if list[0] == gone[0] && SlotHasKey(symbols, list[0], key) {
        assert first == rest;
      } else {
        assert first[0] == list[0] && first[1..] == rest;
      }
    }
  }

  lemma RemoveSlotLists(s: IndexState, i: nat, key: Key)
    requires !key.OfFile?
    ensures ListFor(RemoveSlot(s, i), key) == Remaining(s.symbols, ListFor(s, key), [i], key)
  {
    RetainIsRemaining(s.symbols, ListFor(s, key), i, key);
  }

  ghost predicate NamedIn(symbols: seq<IndexedSymbol>, slots: seq<nat>, q: string) {
    exists k :: 0 <= k < |slots| && slots[k] < |symbols| && symbols[slots[k]].qualifiedName == q
  }

  /** What removing slots leaves of the name maps: removal is by name, whoever owns the entry. */
  ghost predicate NamesRemoved(s: IndexState, t: IndexState, slots: seq<nat>) {
    && t.symbols == s.symbols && t.byFile == s.byFile
    && (forall q :: q in t.byQualifiedName <==> q in s.byQualifiedName && !NamedIn(s.symbols, slots, q))
    && (forall q :: q in t.byQualifiedName ==> t.byQualifiedName[q] == s.byQualifiedName[q])
    && (forall q :: q in t.definitions <==> q in s.definitions && !NamedIn(s.symbols, slots, q))
    && (forall q :: q in t.definitions ==> t.definitions[q] == s.definitions[q])
  }

  lemma {:induction false} RemoveSlotsNames(s: IndexState, slots: seq<nat>)
    ensures NamesRemoved(s, RemoveSlots(s, slots), slots)
    decreases |slots|
  {
    if slots != [] {
      var t, u := RemoveSlot(s, slots[0]), RemoveSlots(s, slots);
      RemoveSlotsNames(t, slots[1..]);
      forall q
        ensures q in u.byQualifiedName <==> q in s.byQualifiedName && !NamedIn(s.symbols, slots, q)
        ensures q in u.definitions <==> q in s.definitions && !NamedIn(s.symbols, slots, q)
      {
      }
    }
  }

  lemma {:induction false} RemoveSlotsLists(s: IndexState, slots: seq<nat>, key: Key)
    requires !key.OfFile?
    ensures ListFor(RemoveSlots(s, slots), key) == Remaining(s.symbols, ListFor(s, key), slots, key)
    decreases |slots|
  {
    hide Remaining, ListFor;
    if slots == [] {
      RemainingOfNone(s.symbols, ListFor(s, key), key);
    } else {
      RemoveSlotLists(s, slots[0], key);
      RemoveSlotsLists(RemoveSlot(s, slots[0]), slots[1..], key);
      RemainingStep(s.symbols, ListFor(s, key), slots, key);
    }
  }

  /** The slots that stay on a key's list are those of the entries from other files. */
  lemma {:induction false} RemainingEntries(symbols: seq<IndexedSymbol>, entries: seq<Entry>, gone: seq<nat>,
          file: FileId, key: Key)
    requires !key.OfFile?
    requires forall k :: 0 <= k < |entries| ==>
              entries[k].slot < |symbols| && symbols[entries[k].slot] == entries[k].symbol
    requires forall k :: 0 <= k < |entries| ==> (entries[k].slot in gone <==> entries[k].file == file)
    ensures Remaining(symbols, Slots(entries, key), gone, key) == Slots(Without(entries, file), key)
  {
    if entries != [] {
      assert forall k :: 0 <= k < |entries[1..]| ==> entries[1..][k] == entries[k + 1];
      RemainingEntries(symbols, entries[1..], gone, file, key);
      var e, list, rest := entries[0], Slots(entries, key), Slots(entries[1..], key);
      assert e == entries[0];
      if HasKey(e.file, e.symbol, key) {
        assert list[0] == e.slot && list[1..] == rest;
      } else {
        assert list == rest;
      }
      if e.file == file {
        assert Without(entries, file) == Without(entries[1..], file);
      } else {
        assert Without(entries, file)[0] == e && Without(entries, file)[1..] == Without(entries[1..], file);
      }
    }
  }

  lemma {:induction false} WithoutFileSlots(entries: seq<Entry>, file: FileId, f: FileId)
    ensures Slots(Without(entries, file), OfFile(f)) == if f == file then [] else Slots(entries, OfFile(f))
  {
    if entries != [] {
      WithoutFileSlots(entries[1..], file, f);
      if entries[0].file == file {
        assert Without(entries, file) == Without(entries[1..], file);
      } else {
        assert Without(entries, file)[0] == entries[0] && Without(entries, file)[1..] == Without(entries[1..], file);
      }
    }
  }

  /** Each entry that stays was an entry, in the same order; each entry of another file stays. */
  lemma {:induction false} WithoutIndex(entries: seq<Entry>, file: FileId, k: nat) returns (i: nat)
    requires k < |Without(entries, file)|
    ensures k <= i < |entries| && entries[i] == Without(entries, file)[k] && entries[i].file != file
  {
    if entries[0].file == file {
      assert Without(entries, file) == Without(entries[1..], file);
      i := WithoutIndex(entries[1..], file, k);
      i := i + 1;
    } else if k == 0 {
      i := 0;
    } else {
      assert Without(entries, file)[1..] == Without(entries[1..], file);
      i := WithoutIndex(entries[1..], file, k - 1);
      i := i + 1;
    }
  }

  lemma {:induction false} WithoutAscends(entries: seq<Entry>, file: FileId)
    requires Ascends(entries)
    ensures Ascends(Without(entries, file))
  {
    if entries != [] {
      var rest := Without(entries[1..], file);
      WithoutAscends(entries[1..], file);
      if entries[0].file == file {
        assert Without(entries, file) == rest;
      } else {
        forall k | 0 <= k < |rest| ensures entries[0].slot < rest[k].slot {
          var i := WithoutIndex(entries[1..], file, k);
        }
        assert Without(entries, file) == [entries[0]] + rest;
      }
    }
  }

  lemma {:induction false} WithoutKeeps(entries: seq<Entry>, file: FileId, i: nat) returns (k: nat)
    requires i < |entries| && entries[i].file != file
    ensures k < |Without(entries, file)| && Without(entries, file)[k] == entries[i]
  {
    if i == 0 {
      k := 0;
    } else {
      k := WithoutKeeps(entries[1..], file, i - 1);
      if entries[0].file == file {
        assert Without(entries, file) == Without(entries[1..], file);
      } else {
        assert Without(entries, file)[1..] == Without(entries[1..], file);
        k := k + 1;
      }
    }
  }

  // ---------------------------------------------------------------------------------------------
  // Both changes keep the index true to the live entries
  // ---------------------------------------------------------------------------------------------

  lemma FileOfSlot(s: IndexState, entries: seq<Entry>, file: FileId, k: nat)
    requires Represents(s, entries) && k < |entries|
    ensures entries[k].slot in Get(s.byFile, file) <==> entries[k].file == file
  {
    assert ListFor(s, OfFile(file)) == Slots(entries, OfFile(file));
    SlotsMembers(entries, OfFile(file), entries[k].slot);
  }

  lemma RemoveKeepsSlots(s: IndexState, t: IndexState, entries: seq<Entry>, file: FileId)
    requires InSlots(s, entries) && t.symbols == s.symbols
    ensures InSlots(t, Without(entries, file))
  {
    WithoutAscends(entries, file);
    forall k | 0 <= k < |Without(entries, file)|
      ensures Without(entries, file)[k].slot < |t.symbols|
      ensures t.symbols[Without(entries, file)[k].slot] == Without(entries, file)[k].symbol
    {
      var i := WithoutIndex(entries, file, k);
    }
  }

  lemma RemoveKeepsList(s: IndexState, entries: seq<Entry>, file: FileId, key: Key)
    requires Represents(s, entries)
    ensures ListFor(WithoutFile(s, file), key) == Slots(Without(entries, file), key)
  {
    assert ListFor(s, key) == Slots(entries, key);
    var gone := Get(s.byFile, file);
    var cut := s.(byFile := s.byFile - {file});
    RemoveSlotsNames(cut, gone);
    if key.OfFile? {
      WithoutFileSlots(entries, file, key.file);
      assert file !in s.byFile ==> ListFor(s, OfFile(file)) == Slots(entries, OfFile(file));
    } else {
      forall k | 0 <= k < |entries| ensures entries[k].slot in gone <==> entries[k].file == file {
        FileOfSlot(s, entries, file, k);
      }
      RemainingEntries(s.symbols, entries, gone, file, key);
      RemoveSlotsLists(cut, gone, key);
      assert file !in s.byFile ==> WithoutFile(s, file) == s;
      RemainingOfNone(s.symbols, ListFor(s, key), key);
    }
  }

  /** Removing a file leaves an index of the other files' entries. */
  lemma RemoveFileRepresents(s: IndexState, entries: seq<Entry>, file: FileId)
    requires Represents(s, entries)
    ensures Represents(WithoutFile(s, file), Without(entries, file))
    ensures WithoutFile(s, file).symbols == s.symbols
  {
    hide ListFor, Slots, InSlots, Remaining;
    var t, cut := WithoutFile(s, file), s.(byFile := s.byFile - {file});
    RemoveSlotsNames(cut, Get(s.byFile, file));
    RemoveKeepsSlots(s, t, entries, file);
    forall key ensures ListFor(t, key) == Slots(Without(entries, file), key) {
      RemoveKeepsList(s, entries, file, key);
    }
  }

  /** Adding a file replaces its entries and puts the new ones last. */
  lemma AddFileRepresents(s: IndexState, entries: seq<Entry>, file: FileId, list: seq<IndexedSymbol>)
    requires Represents(s, entries)
    ensures Represents(WithFile(s, file, list), Without(entries, file) + NewEntries(|s.symbols|, file, list))
    ensures |WithFile(s, file, list).symbols| == |s.symbols| + |list|
  {
    hide InSlots, WithoutFile, AddAll, Without;
    var cleared, rest := WithoutFile(s, file), Without(entries, file);
    RemoveFileRepresents(s, entries, file);
    AddAllKeepsAdding(cleared, rest, cleared.byFile, file, list);
    var t, all := WithFile(s, file, list), rest + NewEntries(|s.symbols|, file, list);
    AddFileSlots(AddAll(cleared, list), t, all);
    forall key ensures ListFor(t, key) == Slots(all, key) {
      if key.OfFile? {
        assert ListFor(cleared, key) == Slots(rest, key);
        WithoutFileSlots(entries, file, key.file);
        SlotsConcat(rest, NewEntries(|s.symbols|, file, list), key);
        NewEntriesSlots(|s.symbols|, file, list, key.file);
      } else {
        assert ListFor(AddAll(cleared, list), key) == Slots(all, key);
      }
    }
  }

  lemma AddFileSlots(a: IndexState, t: IndexState, entries: seq<Entry>)
    requires InSlots(a, entries) && t.symbols == a.symbols
    ensures InSlots(t, entries)
  {
  }

  // ---------------------------------------------------------------------------------------------
  // Whole histories
  // ---------------------------------------------------------------------------------------------

  datatype Change = Added(file: FileId, symbols: seq<IndexedSymbol>) | Removed(file: FileId)

  function Changed(s: IndexState, change: Change): IndexState {
    match change
    case Added(file, symbols) => WithFile(s, file, symbols)
    case Removed(file) => WithoutFile(s, file)
  }

  function FilesChanged(files: map<FileId, seq<IndexedSymbol>>, change: Change): map<FileId, seq<IndexedSymbol>> {
    match change
    case Added(file, symbols) => files[file := symbols]
    case Removed(file) => files - {file}
  }

  function RunIndex(history: seq<Change>): IndexState {
    if history == [] then EMPTY else Changed(RunIndex(history[..|history| - 1]), history[|history| - 1])
  }

  /** The plain map from files to their last added symbols. */
  function RunFiles(history: seq<Change>): map<FileId, seq<IndexedSymbol>> {
    if history == [] then map[] else FilesChanged(RunFiles(history[..|history| - 1]), history[|history| - 1])
  }

  function SlotsUsed(history: seq<Change>): nat {
    if history == [] then 0
    else
      SlotsUsed(history[..|history| - 1])
      + match history[|history| - 1] case Added(_, symbols) => |symbols| case Removed(_) => 0
  }

  /** The live entries after a history, files in the order of their last addition. */
  function Live(history: seq<Change>): seq<Entry> {
    if history == [] then []
    else
      var before := Live(history[..|history| - 1]);
      match history[|history| - 1]
      case Added(file, symbols) =>
        Without(before, file) + NewEntries(SlotsUsed(history[..|history| - 1]), file, symbols)
      case Removed(file) => Without(before, file)
  }

  /** After every history the slots and lists are those of the live entries. */
  lemma {:induction false} RunRepresents(history: seq<Change>)
    ensures Represents(RunIndex(history), Live(history))
    ensures |RunIndex(history).symbols| == SlotsUsed(history)
  {
    hide Represents, WithFile, WithoutFile, Without;
    if history == [] {
      EmptyRepresents();
    } else {
      var before := history[..|history| - 1];
      RunRepresents(before);
      match history[|history| - 1]
      case Added(file, symbols) => AddFileRepresents(RunIndex(before), Live(before), file, symbols);
      case Removed(file) => RemoveFileRepresents(RunIndex(before), Live(before), file);
    }
  }

  /** The name maps lead to symbols of that name, one of them to definitions. */
  ghost predicate IsKeyed(s: IndexState) {
    && (forall q :: q in s.byQualifiedName ==>
          s.byQualifiedName[q] < |s.symbols| && s.symbols[s.byQualifiedName[q]].qualifiedName == q)
    && (forall q :: q in s.definitions ==>
          && s.definitions[q] < |s.symbols| && s.symbols[s.definitions[q]].qualifiedName == q
          && IsDefinition(s.symbols[s.definitions[q]].kind))
  }

  lemma {:induction false} AddAllIsKeyed(s: IndexState, list: seq<IndexedSymbol>)
    requires IsKeyed(s)
    ensures IsKeyed(AddAll(s, list))
  {
    hide Push, IsDefinition;
    if list != [] {
      AddAllIsKeyed(s, list[..|list| - 1]);
    }
  }

  lemma WithoutFileIsKeyed(s: IndexState, file: FileId)
    requires IsKeyed(s)
    ensures IsKeyed(WithoutFile(s, file))
  {
    if file in s.byFile {
      RemoveSlotsNames(s.(byFile := s.byFile - {file}), s.byFile[file]);
    }
  }

  /** After any history at all, names lead to symbols of that name. */
  lemma {:induction false} RunIsKeyed(history: seq<Change>)
    ensures IsKeyed(RunIndex(history))
  {
    hide IsKeyed, WithoutFile, AddAll;
    if history == [] {
      EmptyIsKeyed();
    } else {
      var before := RunIndex(history[..|history| - 1]);
      RunIsKeyed(history[..|history| - 1]);
      match history[|history| - 1]
      case Added(file, symbols) =>
        WithoutFileIsKeyed(before, file);
        var cleared := WithoutFile(before, file);
        AddAllIsKeyed(cleared, symbols);
        FileListsDoNotMatter(AddAll(cleared, symbols), WithFile(before, file, symbols));
      case Removed(file) => WithoutFileIsKeyed(before, file);
    }
  }

  lemma EmptyIsKeyed()
    ensures IsKeyed(EMPTY)
  {
  }

  lemma FileListsDoNotMatter(s: IndexState, t: IndexState)
    requires IsKeyed(s) && t.symbols == s.symbols && t.byQualifiedName == s.byQualifiedName
    requires t.definitions == s.definitions
    ensures IsKeyed(t)
  {
  }

  lemma EmptyRepresents()
    ensures Represents(EMPTY, [])
  {
    forall key ensures ListFor(EMPTY, key) == Slots([], key) {
    }
  }

  // ---------------------------------------------------------------------------------------------
  // What lookups return
  // ---------------------------------------------------------------------------------------------

  function Selected(entries: seq<Entry>, key: Key): seq<IndexedSymbol> {
    if entries == [] then []
    else
      (if HasKey(entries[0].file, entries[0].symbol, key) then [entries[0].symbol] else [])
      + Selected(entries[1..], key)
  }

  lemma {:induction false} SymbolsAtSlots(s: IndexState, entries: seq<Entry>, key: Key)
    requires forall k :: 0 <= k < |entries| ==>
              entries[k].slot < |s.symbols| && s.symbols[entries[k].slot] == entries[k].symbol
    ensures SymbolsIn(s, Slots(entries, key)) == Selected(entries, key)
  {
    if entries != [] {
      assert forall k :: 0 <= k < |entries[1..]| ==> entries[1..][k] == entries[k + 1];
      assert entries[0].slot < |s.symbols| && s.symbols[entries[0].slot] == entries[0].symbol;
      SymbolsAtSlots(s, entries[1..], key);
      var list := Slots(entries, key);
      if HasKey(entries[0].file, entries[0].symbol, key) {
        assert list[0] == entries[0].slot && list[1..] == Slots(entries[1..], key);
      } else {
        assert list == Slots(entries[1..], key);
      }
    }
  }

  /** A file's live symbols are the list that was added last. */
  lemma {:induction false} SelectedWithout(entries: seq<Entry>, file: FileId, f: FileId)
    ensures Selected(Without(entries, file), OfFile(f)) == if f == file then [] else Selected(entries, OfFile(f))
  {
    if entries != [] {
      SelectedWithout(entries[1..], file, f);
      if entries[0].file == file {
        assert Without(entries, file) == Without(entries[1..], file);
      } else {
        assert Without(entries, file)[0] == entries[0] && Without(entries, file)[1..] == Without(entries[1..], file);
      }
    }
  }

  lemma {:induction false} SelectedConcat(a: seq<Entry>, b: seq<Entry>, key: Key)
    ensures Selected(a + b, key) == Selected(a, key) + Selected(b, key)
  {
    hide HasKey;
    if a == [] {
      assert a + b == b;
    } else {
      assert (a + b)[0] == a[0] && (a + b)[1..] == a[1..] + b;
      SelectedConcat(a[1..], b, key);
    }
  }

  lemma {:induction false} SelectedNew(first: nat, file: FileId, list: seq<IndexedSymbol>, f: FileId)
    ensures Selected(NewEntries(first, file, list), OfFile(f)) == if f == file then list else []
    decreases |list|
  {
    if list != [] {
      SelectedNew(first + 1, file, list[1..], f);
      assert NewEntries(first, file, list)[1..] == NewEntries(first + 1, file, list[1..]);
    }
  }

  lemma {:induction false} LiveFiles(history: seq<Change>, f: FileId)
    ensures Selected(Live(history), OfFile(f)) == if f in RunFiles(history) then RunFiles(history)[f] else []
  {
    hide Selected, Without;
    if history == [] {
      SelectedNew(0, f, [], f);
      assert NewEntries(0, f, []) == Live(history);
    } else {
      var before, last := history[..|history| - 1], history[|history| - 1];
      LiveFiles(before, f);
      SelectedWithout(Live(before), last.file, f);
      if last.Added? {
        SelectedConcat(Without(Live(before), last.file), NewEntries(SlotsUsed(before), last.file, last.symbols),
            OfFile(f));
        SelectedNew(SlotsUsed(before), last.file, last.symbols, f);
      }
    }
  }

  lemma {:induction false} SelectedMembers(entries: seq<Entry>, key: Key, x: IndexedSymbol)
    ensures x in Selected(entries, key) <==>
            exists k :: 0 <= k < |entries| && entries[k].symbol == x && HasKey(entries[k].file, x, key)
  {
    if entries != [] {
      SelectedMembers(entries[1..], key, x);
      assert forall k :: 1 <= k < |entries| ==> entries[k] == entries[1..][k - 1];
      assert forall k :: 0 <= k < |entries[1..]| ==> entries[1..][k] == entries[k + 1];
    }
  }

  /** After every history a file's symbols are the list that was added last. */
  lemma FilesFollowHistory(history: seq<Change>, file: FileId)
    ensures SymbolsInFile(RunIndex(history), file) == if file in RunFiles(history) then RunFiles(history)[file] else []
  {
    hide RunIndex, RunFiles, Live, Ascends;
    var s, live := RunIndex(history), Live(history);
    RunRepresents(history);
    SymbolsAtSlots(s, live, OfFile(file));
    assert ListFor(s, OfFile(file)) == Slots(live, OfFile(file));
    LiveFiles(history, file);
  }

  // ---------------------------------------------------------------------------------------------
  // Qualified names
  // ---------------------------------------------------------------------------------------------

  /** The last symbol of a name in a list, among all symbols or among the definitions. */
  function LastOf(list: seq<IndexedSymbol>, name: string, definitions: bool): Option<IndexedSymbol> {
    if list == [] then None
    else
      var x := list[|list| - 1];
      if x.qualifiedName == name && (definitions ==> IsDefinition(x.kind)) then Some(x)
      else LastOf(list[..|list| - 1], name, definitions)
  }

  function Lookup(s: IndexState, name: string, definitions: bool): Option<IndexedSymbol> {
    if definitions then LookupDefinition(s, name) else LookupQualified(s, name)
  }

  /** What a name leads to after a history, told from the files alone: to its last symbol in the last addition
      that had one, unless a file that held the name has been changed since then. */
  function Answer(history: seq<Change>, name: string, definitions: bool): Option<IndexedSymbol> {
    if history == [] then None
    else
      var before, last := history[..|history| - 1], history[|history| - 1];
      var files, added := RunFiles(before), if last.Added? then LastOf(last.symbols, name, definitions) else None;
      if added.Some? then added
      else if last.file in files && HasNamed(files[last.file], name) then None
      else Answer(before, name, definitions)
  }

  lemma {:induction false} LastOfIsNamed(list: seq<IndexedSymbol>, name: string, definitions: bool)
    ensures LastOf(list, name, definitions).Some? ==> HasNamed(list, name)
    ensures HasNamed(list, name) ==> LastOf(list, name, false).Some?
  {
    hide IsDefinition;
    if list == [] {
      NothingNamed(name);
    } else {
      var n := |list| - 1;
      assert list == list[..n] + [list[n]];
      HasNamedConcat(list[..n], [list[n]], name);
      OneNamed(list[n], name);
      LastOfIsNamed(list[..n], name, definitions);
    }
  }

  /** Adding symbols makes their names lead to the last of them, and leaves other names as they were. */
  lemma {:induction false} AddAllAnswers(s: IndexState, list: seq<IndexedSymbol>, name: string, definitions: bool)
    requires IsKeyed(s)
    ensures var last := LastOf(list, name, definitions);
      Lookup(AddAll(s, list), name, definitions) == if last.Some? then last else Lookup(s, name, definitions)
  {
    hide IsDefinition, Push;
    if list != [] {
      var n := |list| - 1;
      AddAllAnswers(s, list[..n], name, definitions);
      AddAllIsKeyed(s, list[..n]);
    }
  }

  lemma {:induction false} NamedInSymbols(s: IndexState, slots: seq<nat>, name: string)
    ensures NamedIn(s.symbols, slots, name) <==> HasNamed(SymbolsIn(s, slots), name)
  {
    if slots != [] {
      NamedInSymbols(s, slots[1..], name);
      NamedInFirst(s, slots, name);
      var first, rest := if slots[0] < |s.symbols| then [s.symbols[slots[0]]] else [], SymbolsIn(s, slots[1..]);
      assert SymbolsIn(s, slots) == first + rest;
      HasNamedConcat(first, rest, name);
      if slots[0] < |s.symbols| {
        OneNamed(s.symbols[slots[0]], name);
      }
    } else {
      NothingNamed(name);
    }
  }

  lemma OneNamed(x: IndexedSymbol, name: string)
    ensures HasNamed([x], name) <==> x.qualifiedName == name
  {
    assert [x][0] == x;
  }

  lemma NamedInFirst(s: IndexState, slots: seq<nat>, name: string)
    requires slots != []
    ensures NamedIn(s.symbols, slots, name) <==>
            (slots[0] < |s.symbols| && s.symbols[slots[0]].qualifiedName == name)
                || NamedIn(s.symbols, slots[1..], name)
  {
    assert forall k :: 1 <= k < |slots| ==> slots[k] == slots[1..][k - 1];
    assert forall k :: 0 <= k < |slots[1..]| ==> slots[1..][k] == slots[k + 1];
  }

  lemma HasNamedConcat(a: seq<IndexedSymbol>, b: seq<IndexedSymbol>, name: string)
    ensures HasNamed(a + b, name) <==> HasNamed(a, name) || HasNamed(b, name)
  {
    if k :| 0 <= k < |b| && b[k].qualifiedName == name {
      assert (a + b)[|a| + k] == b[k];
    }
    if k :| 0 <= k < |a| && a[k].qualifiedName == name {
      assert (a + b)[k] == a[k];
    }
  }

  /** Removing a file makes the names lead nowhere that it holds, and leaves other names as they were. */
  lemma RemoveAnswers(s: IndexState, file: FileId, name: string, definitions: bool)
    ensures Lookup(WithoutFile(s, file), name, definitions) ==
              if HasNamed(SymbolsInFile(s, file), name) then None else Lookup(s, name, definitions)
  {
    hide RemoveSlots;
    NamedInSymbols(s, Get(s.byFile, file), name);
    if file in s.byFile {
      RemoveSlotsNames(s.(byFile := s.byFile - {file}), s.byFile[file]);
    }
  }

  /** After every history at all, names shared by files included, every name leads to what the history says. */
  lemma {:induction false} NamesFollowHistory(history: seq<Change>, name: string, definitions: bool)
    ensures Lookup(RunIndex(history), name, definitions) == Answer(history, name, definitions)
  {
    hide WithoutFile, AddAll, IsKeyed, SymbolsInFile, LastOf, HasNamed;
    if history == [] {
    } else {
      var before, last := history[..|history| - 1], history[|history| - 1];
      var s := RunIndex(before);
      NamesFollowHistory(before, name, definitions);
      FilesFollowHistory(before, last.file);
      RemoveAnswers(s, last.file, name, definitions);
      NothingNamed(name);
      if last.Added? {
        RunIsKeyed(before);
        WithoutFileIsKeyed(s, last.file);
        AddAllAnswers(WithoutFile(s, last.file), last.symbols, name, definitions);
      }
    }
  }

  lemma NothingNamed(name: string)
    ensures !HasNamed([], name)
  {
  }

  ghost predicate IsDeclared(files: map<FileId, seq<IndexedSymbol>>, name: string) {
    exists f :: f in files && HasNamed(files[f], name)
  }

  /** A symbol as the last of its name in a file. */
  ghost predicate Declares(files: map<FileId, seq<IndexedSymbol>>, name: string, definitions: bool, x: IndexedSymbol) {
    exists f :: f in files && LastOf(files[f], name, definitions) == Some(x)
  }

  /** No qualified name is in two files; within one it may occur any number of times. */
  ghost predicate FilesApart(files: map<FileId, seq<IndexedSymbol>>) {
    forall f, g, name :: f in files && g in files && f != g && HasNamed(files[f], name) ==> !HasNamed(files[g], name)
  }

  /** At no time is a qualified name in two files. */
  ghost predicate NeverShared(history: seq<Change>) {
    forall n :: 0 <= n <= |history| ==> FilesApart(RunFiles(history[..n]))
  }

  lemma NeverSharedPrefix(history: seq<Change>)
    requires NeverShared(history) && history != []
    ensures NeverShared(history[..|history| - 1])
    ensures FilesApart(RunFiles(history)) && FilesApart(RunFiles(history[..|history| - 1]))
  {
    hide FilesApart, RunFiles;
    var before := history[..|history| - 1];
    forall n | 0 <= n <= |before| ensures FilesApart(RunFiles(before[..n])) {
      assert before[..n] == history[..n];
    }
    assert history[..|history|] == history && before[..|before|] == before;
  }

  /** While no name is in two files, a name leads to its last symbol in the one file that has it. */
  lemma {:induction false} AnswerIsDeclared(history: seq<Change>, name: string, definitions: bool, x: IndexedSymbol)
    requires NeverShared(history)
    ensures Answer(history, name, definitions) == Some(x) <==> Declares(RunFiles(history), name, definitions, x)
  {
    hide LastOf, HasNamed, NeverShared;
    if history != [] {
      var before, last := history[..|history| - 1], history[|history| - 1];
      var files, after := RunFiles(before), RunFiles(history);
      NeverSharedPrefix(history);
      AnswerIsDeclared(before, name, definitions, x);
      assert after == FilesChanged(files, last);
      DeclaredAfter(files, last, name, definitions, x);
    }
  }

  lemma DeclaringFile(files: map<FileId, seq<IndexedSymbol>>, name: string, definitions: bool, x: IndexedSymbol)
          returns (f: FileId)
    requires Declares(files, name, definitions, x)
    ensures f in files && LastOf(files[f], name, definitions) == Some(x) && HasNamed(files[f], name)
  {
    hide LastOf, HasNamed;
    f :| f in files && LastOf(files[f], name, definitions) == Some(x);
    LastOfIsNamed(files[f], name, definitions);
  }

  /** What one change does to the declared symbols, while no name is in two files. */
  lemma DeclaredAfter(files: map<FileId, seq<IndexedSymbol>>, last: Change, name: string, definitions: bool,
          x: IndexedSymbol)
    requires FilesApart(files) && FilesApart(FilesChanged(files, last))
    ensures var added := if last.Added? then LastOf(last.symbols, name, definitions) else None;
      Declares(FilesChanged(files, last), name, definitions, x) <==>
        if added.Some? then added == Some(x)
        else Declares(files, name, definitions, x) && !(last.file in files && HasNamed(files[last.file], name))
  {
    hide LastOf, HasNamed;
    var after, file := FilesChanged(files, last), last.file;
    var added := if last.Added? then LastOf(last.symbols, name, definitions) else None;
    assert forall f :: f != file ==> (f in after <==> f in files) && (f in files ==> after[f] == files[f]);
    if added.Some? {
      assert after[file] == last.symbols;
      LastOfIsNamed(last.symbols, name, definitions);
    }
    if Declares(after, name, definitions, x) {
      var f := DeclaringFile(after, name, definitions, x);
      assert added.Some? ==> f == file;
      assert f != file ==> Declares(files, name, definitions, x);
    }
    if added.None? && Declares(files, name, definitions, x) && !(file in files && HasNamed(files[file], name)) {
      var f := DeclaringFile(files, name, definitions, x);
      assert f != file && LastOf(after[f], name, definitions) == Some(x);
    }
  }

  // ---------------------------------------------------------------------------------------------
  // Simple and short names
  // ---------------------------------------------------------------------------------------------

  /** Among the first `k` entries one of a qualified name has a key. */
  predicate HasKeyNamed(entries: seq<Entry>, k: nat, key: Key, qualifiedName: string)
    requires k <= |entries|
  {
    exists j :: 0 <= j < k && entries[j].symbol.qualifiedName == qualifiedName
        && HasKey(entries[j].file, entries[j].symbol, key)
  }

  /** Of the first `n` entries those that have the short name, except for qualified names that some entry has
      together with the simple name or an earlier one with the short name. */
  function ShortOnly(entries: seq<Entry>, n: nat, name: string): seq<IndexedSymbol>
    requires n <= |entries|
  {
    if n == 0 then []
    else
      var x := entries[n - 1].symbol;
      ShortOnly(entries, n - 1, name)
      + (if && x.shortName == Some(name)
            && !HasKeyNamed(entries, |entries|, OfName(name), x.qualifiedName)
            && !HasKeyNamed(entries, n - 1, OfShortName(name), x.qualifiedName)
         then [x] else [])
  }

  lemma SelectedNamed(entries: seq<Entry>, key: Key, qualifiedName: string)
    ensures HasNamed(Selected(entries, key), qualifiedName) <==> HasKeyNamed(entries, |entries|, key, qualifiedName)
  {
    hide HasKey;
    var list := Selected(entries, key);
    if j :| 0 <= j < |list| && list[j].qualifiedName == qualifiedName {
      assert list[j] in list;
      SelectedMembers(entries, key, list[j]);
    }
    if HasKeyNamed(entries, |entries|, key, qualifiedName) {
      var j :|
        && 0 <= j < |entries| && entries[j].symbol.qualifiedName == qualifiedName
        && HasKey(entries[j].file, entries[j].symbol, key);
      SelectedMembers(entries, key, entries[j].symbol);
      var i :| 0 <= i < |list| && list[i] == entries[j].symbol;
    }
  }

  /** A qualified name that no entry has together with the simple name is listed from its first entry with the
      short name on. */
  lemma {:induction false} ShortOnlyNamed(entries: seq<Entry>, n: nat, name: string, qualifiedName: string)
    requires n <= |entries|
    ensures HasNamed(ShortOnly(entries, n, name), qualifiedName) <==>
              !HasKeyNamed(entries, |entries|, OfName(name), qualifiedName)
                  && HasKeyNamed(entries, n, OfShortName(name), qualifiedName)
  {
    if n > 0 {
      ShortOnlyNamed(entries, n - 1, name, qualifiedName);
      var x, before := entries[n - 1].symbol, ShortOnly(entries, n - 1, name);
      HasNamedConcat(before, [x], qualifiedName);
      assert before + [] == before;
      assert HasNamed([x], qualifiedName) <==> [x][0].qualifiedName == qualifiedName;
      HasKeyNamedNext(entries, n, OfShortName(name), qualifiedName);
    }
  }

  lemma HasKeyNamedNext(entries: seq<Entry>, n: nat, key: Key, qualifiedName: string)
    requires 0 < n <= |entries|
    ensures HasKeyNamed(entries, n, key, qualifiedName) <==>
              HasKeyNamed(entries, n - 1, key, qualifiedName)
              || (entries[n - 1].symbol.qualifiedName == qualifiedName
                    && HasKey(entries[n - 1].file, entries[n - 1].symbol, key))
  {
  }

  /** One more entry with the short name: it is listed already or comes last. */
  lemma ShortOnlyNext(entries: seq<Entry>, name: string, k: nat)
    requires k < |entries|
    ensures var e, list := entries[k], Selected(entries, OfName(name)) + ShortOnly(entries, k, name);
      Selected(entries, OfName(name)) + ShortOnly(entries, k + 1, name) ==
        if e.symbol.shortName != Some(name) || HasNamed(list, e.symbol.qualifiedName) then list else list + [e.symbol]
  {
    hide HasNamed, HasKeyNamed, Selected;
    var q := entries[k].symbol.qualifiedName;
    SelectedNamed(entries, OfName(name), q);
    ShortOnlyNamed(entries, k, name, q);
    HasNamedConcat(Selected(entries, OfName(name)), ShortOnly(entries, k, name), q);
  }

  lemma {:induction false} MergedFrom(entries: seq<Entry>, name: string, k: nat, list: seq<IndexedSymbol>)
    requires k <= |entries| && list == Selected(entries, OfName(name)) + ShortOnly(entries, k, name)
    ensures Merged(list, Selected(entries[k..], OfShortName(name))) ==
              Selected(entries, OfName(name)) + ShortOnly(entries, |entries|, name)
    decreases |entries| - k
  {
    hide HasNamed, HasKeyNamed, ShortOnly;
    if k < |entries| {
      var e, rest := entries[k], Selected(entries[k + 1..], OfShortName(name));
      assert entries[k..][0] == e && entries[k..][1..] == entries[k + 1..];
      var next := Selected(entries, OfName(name)) + ShortOnly(entries, k + 1, name);
      ShortOnlyNext(entries, name, k);
      MergedFrom(entries, name, k + 1, next);
      if e.symbol.shortName == Some(name) {
        assert Selected(entries[k..], OfShortName(name)) == [e.symbol] + rest;
        assert ([e.symbol] + rest)[1..] == rest;
      } else {
        assert Selected(entries[k..], OfShortName(name)) == rest;
      }
    }
  }

  /** After every history, lookup by simple name lists the live symbols of that name and then those that only have
      it as their short name, where each qualified name that is listed already is passed over. */
  lemma LookupSimpleLists(history: seq<Change>, name: string)
    ensures var s, live := RunIndex(history), Live(history);
      && LookupSimple(s, name) == Selected(live, OfName(name)) + ShortOnly(live, |live|, name)
      && LookupByShortName(s, name) == Selected(live, OfShortName(name))
  {
    hide RunIndex, Live, Ascends, ShortOnly, Merged;
    var s, live := RunIndex(history), Live(history);
    RunRepresents(history);
    SymbolsAtSlots(s, live, OfName(name));
    SymbolsAtSlots(s, live, OfShortName(name));
    assert ListFor(s, OfName(name)) == Slots(live, OfName(name));
    assert ListFor(s, OfShortName(name)) == Slots(live, OfShortName(name));
    assert live[0..] == live;
    NoneShortOnly(live, name);
    MergedFrom(live, name, 0, Selected(live, OfName(name)));
  }

  lemma NoneShortOnly(entries: seq<Entry>, name: string)
    ensures ShortOnly(entries, 0, name) == []
  {
  }

  // ---------------------------------------------------------------------------------------------
  // The plain map
  // ---------------------------------------------------------------------------------------------

  function DeclaredNames(files: map<FileId, seq<IndexedSymbol>>): set<string> {
    set f, k | f in files && 0 <= k < |files[f]| :: files[f][k].qualifiedName
  }

  lemma LookupIsDeclared(history: seq<Change>, name: string)
    requires NeverShared(history)
    ensures LookupQualified(RunIndex(history), name).Some? <==> IsDeclared(RunFiles(history), name)
  {
    hide RunIndex, RunFiles, LastOf, HasNamed, NeverShared, Answer;
    var files, found := RunFiles(history), LookupQualified(RunIndex(history), name);
    NamesFollowHistory(history, name, false);
    if found.Some? {
      AnswerIsDeclared(history, name, false, found.value);
      var f :| f in files && LastOf(files[f], name, false) == found;
      LastOfIsNamed(files[f], name, false);
    }
    if f :| f in files && HasNamed(files[f], name) {
      LastOfIsNamed(files[f], name, false);
      AnswerIsDeclared(history, name, false, LastOf(files[f], name, false).value);
    }
  }

  /** The index counts the names of the files. */
  lemma LenCounts(history: seq<Change>)
    requires NeverShared(history)
    ensures Len(RunIndex(history)) == |DeclaredNames(RunFiles(history))|
  {
    hide RunIndex, RunFiles, NeverShared;
    var s, files := RunIndex(history), RunFiles(history);
    RunIsKeyed(history);
    forall name ensures name in s.byQualifiedName.Keys <==> name in DeclaredNames(files) {
      LookupIsDeclared(history, name);
      if f, k :| f in files && 0 <= k < |files[f]| && files[f][k].qualifiedName == name {
        assert HasNamed(files[f], name);
      }
    }
    assert s.byQualifiedName.Keys == DeclaredNames(files);
    assert |s.byQualifiedName| == |s.byQualifiedName.Keys|;
  }

  /** Over any history in which no qualified name is in two files at once, the index answers like the plain map
      from files to their last added symbols, although slots are never reclaimed. A name that occurs several
      times in its file leads to the last of them. */
  lemma IndexRefinesFiles(history: seq<Change>, file: FileId, name: string, x: IndexedSymbol)
    requires NeverShared(history)
    ensures var s, files := RunIndex(history), RunFiles(history);
      && SymbolsInFile(s, file) == (if file in files then files[file] else [])
      && (LookupQualified(s, name) == Some(x) <==> Declares(files, name, false, x))
      && (LookupDefinition(s, name) == Some(x) <==> Declares(files, name, true, x))
      && Len(s) == |DeclaredNames(files)|
  {
    hide RunIndex, RunFiles, NeverShared, Answer, Declares;
    FilesFollowHistory(history, file);
    NamesFollowHistory(history, name, false);
    NamesFollowHistory(history, name, true);
    AnswerIsDeclared(history, name, false, x);
    AnswerIsDeclared(history, name, true, x);
    LenCounts(history);
  }

  // ---------------------------------------------------------------------------------------------
  // Names without symbols
  // ---------------------------------------------------------------------------------------------

  ghost predicate NoEmptyList(m: map<string, seq<nat>>) {
    forall n :: n in m ==> m[n] != []
  }

  lemma {:induction false} AddAllListsSome(s: IndexState, list: seq<IndexedSymbol>)
    requires NoEmptyList(s.bySimpleName) && NoEmptyList(s.byShortName)
    ensures var t := AddAll(s, list); NoEmptyList(t.bySimpleName) && NoEmptyList(t.byShortName)
  {
    if list != [] {
      AddAllListsSome(s, list[..|list| - 1]);
    }
  }

  lemma {:induction false} RemoveSlotsListsSome(s: IndexState, slots: seq<nat>)
    requires NoEmptyList(s.bySimpleName) && NoEmptyList(s.byShortName)
    ensures var t := RemoveSlots(s, slots); NoEmptyList(t.bySimpleName) && NoEmptyList(t.byShortName)
    decreases |slots|
  {
    if slots != [] {
      RemoveSlotsListsSome(RemoveSlot(s, slots[0]), slots[1..]);
    }
  }

  lemma WithoutFileListsSome(s: IndexState, file: FileId)
    requires NoEmptyList(s.bySimpleName) && NoEmptyList(s.byShortName)
    ensures var t := WithoutFile(s, file); NoEmptyList(t.bySimpleName) && NoEmptyList(t.byShortName)
  {
    if file in s.byFile {
      RemoveSlotsListsSome(s.(byFile := s.byFile - {file}), s.byFile[file]);
    }
  }

  /** Whatever is added and removed, a simple or short name stays listed only as long as it has a slot. */
  lemma {:induction false} ListedNamesHaveSlots(history: seq<Change>)
    ensures NoEmptyList(RunIndex(history).bySimpleName) && NoEmptyList(RunIndex(history).byShortName)
  {
    hide NoEmptyList, AddAll, RemoveSlots, WithoutFile;
    if history == [] {
      NothingListed();
    } else {
      var before, last := RunIndex(history[..|history| - 1]), history[|history| - 1];
      ListedNamesHaveSlots(history[..|history| - 1]);
      WithoutFileListsSome(before, last.file);
      if last.Added? {
        AddAllListsSome(WithoutFile(before, last.file), last.symbols);
      }
    }
  }

  lemma NothingListed()
    ensures NoEmptyList(EMPTY.bySimpleName) && NoEmptyList(EMPTY.byShortName)
  {
  }

  // ---------------------------------------------------------------------------------------------
  // Names that two files share
  // ---------------------------------------------------------------------------------------------

  /** Removing a file takes a name off the index exactly when one of the file's slots has it, whichever file
      the entry now belongs to. */
  lemma RemoveTakesNames(s: IndexState, file: FileId, q: string)
    ensures q in WithoutFile(s, file).byQualifiedName <==>
            q in s.byQualifiedName && !NamedIn(s.symbols, Get(s.byFile, file), q)
  {
    if file in s.byFile {
      RemoveSlotsNames(s.(byFile := s.byFile - {file}), s.byFile[file]);
    }
  }

  predicate Adds(change: Change, name: string) {
    change.Added? && HasNamed(change.symbols, name)
  }

  /** Change `n` is made to a file that held the name, and neither it nor any later one adds the name. */
  ghost predicate LosesName(history: seq<Change>, n: nat, name: string)
    requires n < |history|
  {
    && history[n].file in RunFiles(history[..n]) && HasNamed(RunFiles(history[..n])[history[n].file], name)
    && forall m :: n <= m < |history| ==> !Adds(history[m], name)
  }

  lemma AnswerStep(history: seq<Change>, name: string)
    requires history != []
    ensures var n := |history| - 1;
      var before, last := history[..n], history[n];
      && (Adds(last, name) ==> Answer(history, name, false).Some?)
      && (!Adds(last, name) && LosesName(history, n, name) ==> Answer(history, name, false) == None)
      && (!Adds(last, name) && !LosesName(history, n, name) ==>
            Answer(history, name, false) == Answer(before, name, false))
  {
    hide LastOf, HasNamed, RunFiles, IsDefinition;
    var last := history[|history| - 1];
    if last.Added? {
      LastOfIsNamed(last.symbols, name, false);
    }
  }

  lemma LosesNameNext(history: seq<Change>, n: nat, name: string)
    requires n < |history| - 1
    ensures var before, last := history[..|history| - 1], history[|history| - 1];
      LosesName(history, n, name) <==> LosesName(before, n, name) && !Adds(last, name)
  {
    hide Adds, RunFiles, HasNamed;
    var before := history[..|history| - 1];
    assert before[..n] == history[..n] && before[n] == history[n];
    assert forall m :: n <= m < |before| ==> before[m] == history[m];
  }

  /** A name that was ever added leads nowhere exactly when, since it was added last, a file that held it has been
      changed. */
  lemma {:induction false} NamesAreLost(history: seq<Change>, name: string)
    requires exists m :: 0 <= m < |history| && Adds(history[m], name)
    ensures LookupQualified(RunIndex(history), name) == None <==>
              exists n :: 0 <= n < |history| && LosesName(history, n, name)
  {
    hide Adds, LosesName, Answer, RunIndex, HasNamed;
    NamesFollowHistory(history, name, false);
    var n := |history| - 1;
    var before, last := history[..n], history[n];
    AnswerStep(history, name);
    forall k | 0 <= k < n ensures LosesName(history, k, name) <==> LosesName(before, k, name) && !Adds(last, name) {
      LosesNameNext(history, k, name);
    }
    if Adds(last, name) {
      assert !LosesName(history, n, name) by {
        NotLostWhenAdded(history, name);
      }
    } else if !LosesName(history, n, name) {
      var m :| 0 <= m < |history| && Adds(history[m], name);
      assert before[m] == history[m];
      NamesAreLost(before, name);
      NamesFollowHistory(before, name, false);
      if LookupQualified(RunIndex(before), name) == None {
        var k :| 0 <= k < |before| && LosesName(before, k, name);
      }
    }
  }

  lemma NotLostWhenAdded(history: seq<Change>, name: string)
    requires history != [] && Adds(history[|history| - 1], name)
    ensures !LosesName(history, |history| - 1, name)
  {
    hide Adds;
  }

  lemma RunSnoc(history: seq<Change>, change: Change)
    ensures RunIndex(history + [change]) == Changed(RunIndex(history), change)
    ensures RunFiles(history + [change]) == FilesChanged(RunFiles(history), change)
  {
    var next := history + [change];
    assert next[..|next| - 1] == history;
  }

  lemma AnswerSnoc(history: seq<Change>, change: Change, name: string)
    ensures Answer(history + [change], name, false) ==
      var added := if change.Added? then LastOf(change.symbols, name, false) else None;
      if added.Some? then added
      else if change.file in RunFiles(history) && HasNamed(RunFiles(history)[change.file], name) then None
      else Answer(history, name, false)
  {
    hide RunFiles, LastOf, HasNamed;
    var next := history + [change];
    assert next[..|next| - 1] == history;
  }

  /** So a name that two files declare is lost when the first of them is removed, or edited so that it has moved
      to the second, though the second stays as it is. */
  lemma SharedNameIsLost(a: IndexedSymbol, b: IndexedSymbol, change: Change)
    requires a.qualifiedName == b.qualifiedName && (change == Removed(0) || change == Added(0, []))
    ensures var history := [Added(0, [a]), Added(1, [b]), change];
      && 1 in RunFiles(history) && RunFiles(history)[1] == [b]
      && LookupQualified(RunIndex(history), b.qualifiedName) == None
  {
    hide RunFiles, RunIndex, Answer;
    var none: seq<Change> := [];
    var one := none + [Added(0, [a])];
    var two := one + [Added(1, [b])];
    assert two + [change] == [Added(0, [a]), Added(1, [b]), change];
    RunSnoc(none, Added(0, [a]));
    RunSnoc(one, Added(1, [b]));
    RunSnoc(two, change);
    assert RunFiles(two)[0] == [a] && HasNamed([a], [a][0].qualifiedName);
    AnswerSnoc(two, change, b.qualifiedName);
    NamesFollowHistory(two + [change], b.qualifiedName, false);
  }

  // ---------------------------------------------------------------------------------------------
  // Children by parent scope
  // ---------------------------------------------------------------------------------------------

  function ParentOf(symbol: IndexedSymbol): string {
    ParentScope(symbol.qualifiedName).GetOr("")
  }

  ghost predicate Increasing(s: seq<nat>) {
    forall i, j :: 0 <= i < j < |s| ==> s[i] < s[j]
  }

  lemma IncreasingSnoc(s: seq<nat>, x: nat)
    requires Increasing(s) && forall y :: y in s ==> y < x
    ensures Increasing(s + [x])
  {
    assert forall i :: 0 <= i < |s| ==> s[i] in s;
  }

  /** The slots below `n` under a scope whose names are live: liveness is tested by name, not by slot. */
  function Children(s: IndexState, n: nat, scope: string): (r: seq<nat>)
    requires n <= |s.symbols|
    ensures forall i :: i in r <==>
              0 <= i < n && s.symbols[i].qualifiedName in s.byQualifiedName && ParentOf(s.symbols[i]) == scope
  {
    if n == 0 then []
    else
      var symbol := s.symbols[n - 1];
      Children(s, n - 1, scope)
      + (if symbol.qualifiedName in s.byQualifiedName && ParentOf(symbol) == scope then [n - 1] else [])
  }

  lemma {:induction false} ChildrenIncrease(s: IndexState, n: nat, scope: string)
    requires n <= |s.symbols|
    ensures Increasing(Children(s, n, scope))
  {
    hide Increasing, ParentOf;
    if n == 0 {
      assert Increasing([]) by {
        IncreasingEmpty();
      }
    } else {
      ChildrenIncrease(s, n - 1, scope);
      IncreasingSnoc(Children(s, n - 1, scope), n - 1);
      assert Children(s, n - 1, scope) + [] == Children(s, n - 1, scope);
    }
  }

  lemma IncreasingEmpty()
    ensures Increasing([])
  {
  }

  function LiveChildren(entries: seq<Entry>, scope: string): (r: seq<nat>)
    ensures forall i :: i in r <==>
              exists k :: 0 <= k < |entries| && entries[k].slot == i && ParentOf(entries[k].symbol) == scope
  {
    if entries == [] then []
    else
      var n := |entries| - 1;
      assert forall k :: 0 <= k < n ==> entries[..n][k] == entries[k];
      LiveChildren(entries[..n], scope) + (if ParentOf(entries[n].symbol) == scope then [entries[n].slot] else [])
  }

  lemma {:induction false} LiveChildrenIncrease(entries: seq<Entry>, scope: string)
    requires Ascends(entries)
    ensures Increasing(LiveChildren(entries, scope))
  {
    hide Increasing, ParentOf;
    if entries == [] {
      IncreasingEmpty();
    } else {
      var n := |entries| - 1;
      LiveChildrenIncrease(entries[..n], scope);
      var before := LiveChildren(entries[..n], scope);
      IncreasingSnoc(before, entries[n].slot);
      assert before + [] == before;
    }
  }

  lemma LastOfIncreasing(s: seq<nat>, x: nat)
    requires Increasing(s) && x in s
    ensures x <= s[|s| - 1] && (x < s[|s| - 1] <==> x in s[..|s| - 1])
    ensures Increasing(s[..|s| - 1])
  {
  }

  lemma FirstIsIn(s: seq<nat>)
    requires s != []
    ensures s[0] in s
  {
  }

  lemma {:induction false} IncreasingAreEqual(a: seq<nat>, b: seq<nat>)
    requires Increasing(a) && Increasing(b) && forall x :: x in a <==> x in b
    ensures a == b
  {
    hide Increasing;
    if a == [] {
      if b != [] {
        FirstIsIn(b);
      }
    } else {
      var n, m := |a| - 1, |b| - 1;
      assert a[n] in a && b != [] && b[m] in b;
      LastOfIncreasing(a, b[m]);
      LastOfIncreasing(b, a[n]);
      forall x ensures x in a[..n] <==> x in b[..m] {
        assert x in a[..n] ==> x in a;
        assert x in b[..m] ==> x in b;
        if x in a {
          LastOfIncreasing(a, x);
          LastOfIncreasing(b, x);
        }
      }
      IncreasingAreEqual(a[..n], b[..m]);
    }
  }

  predicate IsChild(s: IndexState, i: nat, scope: string)
    requires i < |s.symbols|
  {
    s.symbols[i].qualifiedName in s.byQualifiedName && ParentOf(s.symbols[i]) == scope
  }

  /** A listed child that is no live entry. */
  ghost predicate IsStale(s: IndexState, entries: seq<Entry>, i: nat, scope: string) {
    i < |s.symbols| && IsChild(s, i, scope) && forall k :: 0 <= k < |entries| ==> entries[k].slot != i
  }

  /** A live entry under the scope whose name leads nowhere. */
  ghost predicate IsMissed(s: IndexState, entries: seq<Entry>, k: nat, scope: string) {
    k < |entries| && ParentOf(entries[k].symbol) == scope && entries[k].symbol.qualifiedName !in s.byQualifiedName
  }

  /** The children that the parent index lists are the live ones exactly when none is stale and none is missed. */
  lemma StaleSlotsDecide(s: IndexState, entries: seq<Entry>, scope: string)
    requires InSlots(s, entries)
    ensures Children(s, |s.symbols|, scope) == LiveChildren(entries, scope) <==>
              (forall i :: !IsStale(s, entries, i, scope)) && (forall k :: !IsMissed(s, entries, k, scope))
  {
    hide ParentOf, Increasing;
    var all, live := Children(s, |s.symbols|, scope), LiveChildren(entries, scope);
    if all == live {
      forall i: nat ensures !IsStale(s, entries, i, scope) {
        assert i in all <==> i in live;
      }
      forall k: nat ensures !IsMissed(s, entries, k, scope) {
        if k < |entries| && ParentOf(entries[k].symbol) == scope {
          assert entries[k].slot in live && entries[k].slot in all;
        }
      }
    }
    if (forall i :: !IsStale(s, entries, i, scope)) && (forall k :: !IsMissed(s, entries, k, scope)) {
      forall i ensures i in all <==> i in live {
        if i in live {
          var k :| 0 <= k < |entries| && entries[k].slot == i && ParentOf(entries[k].symbol) == scope;
          assert !IsMissed(s, entries, k, scope);
        }
        if i in all {
          assert !IsStale(s, entries, i, scope);
        }
      }
      ChildrenIncrease(s, |s.symbols|, scope);
      LiveChildrenIncrease(entries, scope);
      IncreasingAreEqual(all, live);
    }
  }

  /** Every symbol that was ever added, in order. */
  function AllAdded(history: seq<Change>): seq<IndexedSymbol> {
    if history == [] then []
    else
      AllAdded(history[..|history| - 1])
      + match history[|history| - 1] case Added(_, symbols) => symbols case Removed(_) => []
  }

  /** The file to which the symbol in a slot was added. */
  function AddedTo(history: seq<Change>, i: nat): FileId
    requires i < SlotsUsed(history)
  {
    var before := history[..|history| - 1];
    if i < SlotsUsed(before) then AddedTo(before, i) else history[|history| - 1].file
  }

  /** The file of a slot has been changed again since the slot was filled. */
  predicate Superseded(history: seq<Change>, i: nat)
    requires i < SlotsUsed(history)
  {
    var before := history[..|history| - 1];
    i < SlotsUsed(before) && (AddedTo(before, i) == history[|history| - 1].file || Superseded(before, i))
  }

  /** A symbol under the scope whose file has been changed again has a name that leads somewhere. */
  ghost predicate ListsDead(history: seq<Change>, scope: string) {
    exists i: nat :: i < |AllAdded(history)| == SlotsUsed(history) && Superseded(history, i)
      && ParentOf(AllAdded(history)[i]) == scope && Answer(history, AllAdded(history)[i].qualifiedName, false).Some?
  }

  /** A symbol under the scope that a file holds has a name that leads nowhere. */
  ghost predicate MissesLive(history: seq<Change>, scope: string) {
    exists f, x :: f in RunFiles(history) && x in RunFiles(history)[f]
      && ParentOf(x) == scope && Answer(history, x.qualifiedName, false) == None
  }

  lemma WithoutFileSymbols(s: IndexState, file: FileId)
    ensures WithoutFile(s, file).symbols == s.symbols
  {
    if file in s.byFile {
      RemoveSlotsNames(s.(byFile := s.byFile - {file}), s.byFile[file]);
    }
  }

  lemma {:induction false} AddAllSymbols(s: IndexState, list: seq<IndexedSymbol>)
    ensures AddAll(s, list).symbols == s.symbols + list
  {
    hide Push, IsDefinition;
    if list != [] {
      AddAllSymbols(s, list[..|list| - 1]);
    }
  }

  /** Slots are never reclaimed: the symbol vector holds everything that was ever added. */
  lemma {:induction false} RunSymbols(history: seq<Change>)
    ensures RunIndex(history).symbols == AllAdded(history)
  {
    hide WithoutFile, AddAll;
    if history != [] {
      var before := history[..|history| - 1];
      RunSymbols(before);
      match history[|history| - 1]
      case Added(file, symbols) =>
        WithoutFileSymbols(RunIndex(before), file);
        AddAllSymbols(WithoutFile(RunIndex(before), file), symbols);
      case Removed(file) => WithoutFileSymbols(RunIndex(before), file);
    }
  }

  ghost predicate HasSlot(entries: seq<Entry>, i: nat) {
    exists k :: 0 <= k < |entries| && entries[k].slot == i
  }

  /** All entries in the slot are the file's. */
  ghost predicate SlotIsOf(entries: seq<Entry>, i: nat, file: FileId) {
    forall k :: 0 <= k < |entries| && entries[k].slot == i ==> entries[k].file == file
  }

  /** The live entries are in the slots that have not been superseded, each for the file it was added to. */
  lemma {:induction false} LiveSlots(history: seq<Change>, i: nat)
    requires i < SlotsUsed(history)
    ensures SlotIsOf(Live(history), i, AddedTo(history, i))
    ensures HasSlot(Live(history), i) <==> !Superseded(history, i)
  {
    hide Without, HasSlot, SlotIsOf;
    var n := |history| - 1;
    var before, last := history[..n], history[n];
    var used, rest := SlotsUsed(before), Without(Live(before), last.file);
    var added := if last.Added? then NewEntries(used, last.file, last.symbols) else [];
    assert Live(history) == rest + added;
    SlotsConcatenated(rest, added, i, AddedTo(history, i));
    forall k | 0 <= k < |rest| ensures rest[k].slot < used {
      LiveBound(before, last.file, k);
    }
    if i < used {
      LiveSlots(before, i);
      KeptSlots(Live(before), last.file, i, AddedTo(before, i));
    } else {
      AddedSlot(rest, added, used, i, last.file);
    }
    NoAddedSlot(added, used, i, AddedTo(history, i));
  }

  lemma SlotsConcatenated(a: seq<Entry>, b: seq<Entry>, i: nat, file: FileId)
    ensures HasSlot(a + b, i) <==> HasSlot(a, i) || HasSlot(b, i)
    ensures SlotIsOf(a + b, i, file) <==> SlotIsOf(a, i, file) && SlotIsOf(b, i, file)
  {
    assert forall k :: 0 <= k < |a| ==> (a + b)[k] == a[k];
    assert forall k :: 0 <= k < |b| ==> (a + b)[|a| + k] == b[k];
  }

  /** Added entries are in new slots. */
  lemma NoAddedSlot(added: seq<Entry>, used: nat, i: nat, file: FileId)
    requires forall k :: 0 <= k < |added| ==> added[k].slot == used + k
    ensures i < used ==> !HasSlot(added, i) && SlotIsOf(added, i, file)
  {
  }

  lemma AddedSlot(rest: seq<Entry>, added: seq<Entry>, used: nat, i: nat, file: FileId)
    requires forall k :: 0 <= k < |added| ==> added[k].slot == used + k && added[k].file == file
    requires used <= i < used + |added| && forall k :: 0 <= k < |rest| ==> rest[k].slot < used
    ensures HasSlot(added, i) && SlotIsOf(added, i, file) && SlotIsOf(rest, i, file)
  {
    assert added[i - used].slot == i;
  }

  lemma LiveBound(history: seq<Change>, file: FileId, k: nat)
    requires k < |Without(Live(history), file)|
    ensures Without(Live(history), file)[k].slot < SlotsUsed(history)
  {
    hide Live, SlotsUsed, Without;
    RunRepresents(history);
    var j := WithoutIndex(Live(history), file, k);
  }

  /** Whether a slot stays when a file's entries go. */
  lemma KeptSlots(entries: seq<Entry>, file: FileId, i: nat, owner: FileId)
    requires SlotIsOf(entries, i, owner)
    ensures SlotIsOf(Without(entries, file), i, owner)
    ensures HasSlot(Without(entries, file), i) <==> HasSlot(entries, i) && owner != file
  {
    hide Without;
    var rest := Without(entries, file);
    forall k | 0 <= k < |rest| && rest[k].slot == i ensures rest[k].file == owner != file && HasSlot(entries, i) {
      var j := WithoutIndex(entries, file, k);
      assert entries[j].slot == i;
    }
    if HasSlot(entries, i) && owner != file {
      var j :| 0 <= j < |entries| && entries[j].slot == i;
      var k := WithoutKeeps(entries, file, j);
    }
  }

  lemma NameLeads(history: seq<Change>, name: string)
    ensures name in RunIndex(history).byQualifiedName <==> Answer(history, name, false).Some?
  {
    hide RunIndex, Answer;
    NamesFollowHistory(history, name, false);
    RunIsKeyed(history);
  }

  lemma StaleIsSuperseded(history: seq<Change>, scope: string, i: nat)
    ensures IsStale(RunIndex(history), Live(history), i, scope) <==>
            && i < |AllAdded(history)| == SlotsUsed(history) && Superseded(history, i)
            && ParentOf(AllAdded(history)[i]) == scope
            && Answer(history, AllAdded(history)[i].qualifiedName, false).Some?
  {
    hide RunIndex, Live, Answer, ParentOf, Superseded, Represents, AllAdded;
    RunRepresents(history);
    RunSymbols(history);
    if i < |AllAdded(history)| {
      LiveSlots(history, i);
      NameLeads(history, AllAdded(history)[i].qualifiedName);
    }
  }

  lemma MissedIsLost(history: seq<Change>, scope: string)
    ensures (exists k: nat :: IsMissed(RunIndex(history), Live(history), k, scope)) <==> MissesLive(history, scope)
  {
    hide RunIndex, Live, Answer, ParentOf, RunFiles, HasKey;
    var s, live, files := RunIndex(history), Live(history), RunFiles(history);
    if k: nat :| IsMissed(s, live, k, scope) {
      var x := live[k].symbol;
      NameLeads(history, x.qualifiedName);
      LiveFiles(history, live[k].file);
      IsOfFile(live, k);
      SelectedMembers(live, OfFile(live[k].file), x);
    }
    if f, x :| f in files && x in files[f] && ParentOf(x) == scope && Answer(history, x.qualifiedName, false) == None {
      NameLeads(history, x.qualifiedName);
      LiveFiles(history, f);
      SelectedMembers(live, OfFile(f), x);
      var k :| 0 <= k < |live| && live[k].symbol == x && HasKey(live[k].file, x, OfFile(f));
      assert IsMissed(s, live, k, scope);
    }
  }

  lemma IsOfFile(entries: seq<Entry>, k: nat)
    requires k < |entries|
    ensures HasKey(entries[k].file, entries[k].symbol, OfFile(entries[k].file))
  {
  }

  /** After every history, the children that the parent index lists for a scope are its live ones exactly when no
      symbol that was there before its file changed again has a name that leads somewhere, and no symbol that is
      there has a name that leads nowhere. */
  lemma ChildrenAreLive(history: seq<Change>, scope: string)
    ensures var s := RunIndex(history);
      Children(s, |s.symbols|, scope) == LiveChildren(Live(history), scope) <==>
        !ListsDead(history, scope) && !MissesLive(history, scope)
  {
    hide RunIndex, RunFiles, Live, MissesLive, IsStale, IsMissed, ParentOf, Superseded, AllAdded, ListsAgree, InSlots,
         Answer;
    var s, live := RunIndex(history), Live(history);
    RunRepresents(history);
    StaleSlotsDecide(s, live, scope);
    MissedIsLost(history, scope);
    forall i: nat {
      StaleIsSuperseded(history, scope, i);
    }
  }

  /** Without names that two files share, no live child is missed. */
  lemma NoneMissed(history: seq<Change>, scope: string)
    requires NeverShared(history)
    ensures !MissesLive(history, scope)
  {
    hide RunFiles, NeverShared, ParentOf, Answer, RunIndex;
    if f, x :| f in RunFiles(history) && x in RunFiles(history)[f] && Answer(history, x.qualifiedName, false) == None {
      assert HasNamed(RunFiles(history)[f], x.qualifiedName);
      LookupIsDeclared(history, x.qualifiedName);
      NamesFollowHistory(history, x.qualifiedName, false);
    }
  }

  lemma LiveSnoc(history: seq<Change>, file: FileId, symbol: IndexedSymbol)
    ensures var next := history + [Added(file, [symbol])];
      && Live(next) == Without(Live(history), file) + [Entry(SlotsUsed(history), file, symbol)]
      && SlotsUsed(next) == SlotsUsed(history) + 1 && AllAdded(next) == AllAdded(history) + [symbol]
  {
    var next := history + [Added(file, [symbol])];
    assert next[..|next| - 1] == history;
    assert NewEntries(SlotsUsed(history), file, [symbol]) == [Entry(SlotsUsed(history), file, symbol)];
  }

  lemma LiveAfterEdit(none: seq<Change>, once: seq<Change>, twice: seq<Change>, a: IndexedSymbol)
    requires none == [] && once == none + [Added(0, [a])] && twice == once + [Added(0, [a])]
    ensures Live(none) == [] && Live(once) == [Entry(0, 0, a)] && Live(twice) == [Entry(1, 0, a)]
    ensures AllAdded(twice) == [a, a]
  {
    hide Without, Live, AllAdded;
    LiveSnoc(none, 0, a);
    LiveSnoc(once, 0, a);
    NothingLive(none);
    WithoutOne(0, a);
  }

  lemma EditIsNeverShared(none: seq<Change>, once: seq<Change>, twice: seq<Change>, a: IndexedSymbol)
    requires none == [] && once == none + [Added(0, [a])] && twice == once + [Added(0, [a])]
    ensures NeverShared(twice) && Answer(twice, a.qualifiedName, false) == Some(a)
  {
    hide RunFiles, HasNamed, RunIndex, Answer;
    RunSnoc(none, Added(0, [a]));
    RunSnoc(once, Added(0, [a]));
    NoFiles(none);
    AnswerSnoc(once, Added(0, [a]), a.qualifiedName);
    forall n | 0 <= n <= |twice| ensures FilesApart(RunFiles(twice[..n])) {
      assert twice[..n] == none || twice[..n] == once || twice[..n] == twice;
    }
  }

  lemma NoFiles(none: seq<Change>)
    requires none == []
    ensures RunFiles(none) == map[]
  {
  }

  lemma NothingLive(none: seq<Change>)
    requires none == []
    ensures Live(none) == [] && AllAdded(none) == [] && SlotsUsed(none) == 0 && Without([], 0) == []
  {
  }

  lemma WithoutOne(slot: nat, a: IndexedSymbol)
    ensures Without([Entry(slot, 0, a)], 0) == []
  {
    assert [Entry(slot, 0, a)][1..] == [];
  }

  /** Adding a file again, as an edit does, is enough: the parent index then lists the symbol's old slot too. */
  lemma EditedFileListsTwice(a: IndexedSymbol)
    ensures var history := [Added(0, [a]), Added(0, [a])];
      && NeverShared(history)
      && Children(RunIndex(history), |RunIndex(history).symbols|, ParentOf(a)) == [0, 1]
      && LiveChildren(Live(history), ParentOf(a)) == [1]
  {
    hide RunIndex, Live, NeverShared, ParentOf, AllAdded, ListsAgree, Answer;
    var history := [Added(0, [a]), Added(0, [a])];
    var none: seq<Change> := [];
    var once := none + [Added(0, [a])];
    assert history == once + [Added(0, [a])];
    LiveAfterEdit(none, once, history, a);
    EditIsNeverShared(none, once, history, a);
    NameLeads(history, a.qualifiedName);
    RunSymbols(history);
    var s := RunIndex(history);
    assert s.symbols == [a, a];
    assert Children(s, 1, ParentOf(a)) == [0];
    assert [Entry(1, 0, a)][..0] == [];
    assert LiveChildren([], ParentOf(a)) == [];
  }

  /** One round of the loop that fills the parent index. */
  lemma PushesChildren(s: IndexState, before: map<string, seq<nat>>, after: map<string, seq<nat>>, idx: nat)
    requires idx < |s.symbols| && forall scope :: Get(before, scope) == Children(s, idx, scope)
    requires var symbol := s.symbols[idx];
      after == if symbol.qualifiedName in s.byQualifiedName then Push(before, ParentOf(symbol), idx) else before
    ensures forall scope :: Get(after, scope) == Children(s, idx + 1, scope)
  {
    hide Children, Push, ParentOf;
    forall scope ensures Get(after, scope) == Children(s, idx + 1, scope) {
      PushesChild(s, before, idx, scope);
    }
  }

  lemma PushesChild(s: IndexState, before: map<string, seq<nat>>, idx: nat, scope: string)
    requires idx < |s.symbols| && Get(before, scope) == Children(s, idx, scope)
    ensures var symbol := s.symbols[idx];
      Get(if symbol.qualifiedName in s.byQualifiedName then Push(before, ParentOf(symbol), idx) else before, scope)
        == Children(s, idx + 1, scope)
  {
    hide ParentOf;
  }

  // ---------------------------------------------------------------------------------------------
  // The index in place
  // ---------------------------------------------------------------------------------------------

  class SymbolIndex {
    var symbols: seq<IndexedSymbol>
    var byQualifiedName: map<string, nat>
    var bySimpleName: map<string, seq<nat>>
    var byShortName: map<string, seq<nat>>
    var byFile: map<FileId, seq<nat>>
    var definitions: map<string, nat>
    var byParentScope: map<string, seq<nat>>
    var parentIndexDirty: bool
    var visibilityMap: map<string, ScopeVisibility>
    var baseTypeCache: map<string, Option<string>>

    function State(): IndexState
      reads this
    {
      IndexState(symbols, byQualifiedName, bySimpleName, byShortName, byFile, definitions)
    }

    /** The parent index is current or marked as dirty. */
    ghost predicate Valid()
      reads this
    {
      !parentIndexDirty ==> forall scope :: Get(byParentScope, scope) == Children(State(), |symbols|, scope)
    }

    constructor ()
      ensures Valid() && State() == EMPTY && visibilityMap == map[] && baseTypeCache == map[]
    {
      symbols, byQualifiedName, bySimpleName, byShortName := [], map[], map[], map[];
      byFile, definitions, byParentScope, parentIndexDirty := map[], map[], map[], false;
      visibilityMap, baseTypeCache := map[], map[];
    }

    method PushSymbol(symbol: IndexedSymbol)
      modifies this
      ensures State() == AddOne(old(State()), symbol)
      ensures unchanged(`byParentScope) && unchanged(`parentIndexDirty) && unchanged(`visibilityMap)
      ensures unchanged(`baseTypeCache)
    {
      var idx := |symbols|;
      byQualifiedName := byQualifiedName[symbol.qualifiedName := idx];
      bySimpleName := Push(bySimpleName, symbol.name, idx);
      if symbol.shortName.Some? {
        byShortName := Push(byShortName, symbol.shortName.value, idx);
      }
      if IsDefinition(symbol.kind) {
        definitions := definitions[symbol.qualifiedName := idx];
      }
      symbols := symbols + [symbol];
    }

    method AddFile(file: FileId, list: seq<IndexedSymbol>)
      requires Valid()
      modifies this
      ensures Valid() && parentIndexDirty
      ensures State() == WithFile(old(State()), file, list)
    {
      RemoveFile(file);
      parentIndexDirty := true;
      ghost var cleared := State();
      var fileIndices := [];
      for i := 0 to |list|
        invariant parentIndexDirty
        invariant State() == AddAll(cleared, list[..i]) && |symbols| == |cleared.symbols| + i
        invariant fileIndices == SlotRange(|cleared.symbols|, i)
      {
        assert list[..i + 1][..i] == list[..i];
        fileIndices := fileIndices + [|symbols|];
        PushSymbol(list[i]);
      }
      assert list[..|list|] == list;
      byFile := byFile[file := fileIndices];
    }

    method DropSlot(idx: nat)
      modifies this
      ensures State() == RemoveSlot(old(State()), idx)
      ensures unchanged(`byParentScope) && unchanged(`parentIndexDirty) && unchanged(`baseTypeCache)
      ensures visibilityMap == if idx < |symbols| then old(visibilityMap) - {symbols[idx].qualifiedName}
                else old(visibilityMap)
    {
      if idx < |symbols| {
        var symbol := symbols[idx];
        byQualifiedName := byQualifiedName - {symbol.qualifiedName};
        definitions := definitions - {symbol.qualifiedName};
        visibilityMap := visibilityMap - {symbol.qualifiedName};
        bySimpleName := Take(bySimpleName, symbol.name, idx);
        if symbol.shortName.Some? {
          byShortName := Take(byShortName, symbol.shortName.value, idx);
        }
      }
    }

    method RemoveFile(file: FileId)
      requires Valid()
      modifies this
      ensures Valid() && State() == WithoutFile(old(State()), file)
      ensures file in old(byFile) ==> parentIndexDirty && baseTypeCache == map[]
      ensures file !in old(byFile) ==> unchanged(this)
      ensures forall q :: q in visibilityMap <==>
                q in old(visibilityMap) && !(file in old(byFile) && NamedIn(old(symbols), old(byFile)[file], q))
    {
      if file !in byFile {
        return;
      }
      var indices := byFile[file];
      byFile := byFile - {file};
      parentIndexDirty, baseTypeCache := true, map[];
      ghost var start := State();
      for i := 0 to |indices|
        invariant symbols == start.symbols && parentIndexDirty && baseTypeCache == map[]
        invariant RemoveSlots(State(), indices[i..]) == RemoveSlots(start, indices)
        invariant forall q :: q in visibilityMap <==> q in old(visibilityMap) && !NamedIn(symbols, indices[..i], q)
      {
        assert indices[i..][0] == indices[i] && indices[i..][1..] == indices[i + 1..];
        forall q ensures NamedIn(symbols, indices[..i + 1], q) <==>
                   NamedIn(symbols, indices[..i], q)
                       || (indices[i] < |symbols| && symbols[indices[i]].qualifiedName == q)
        {
          NamedInSnoc(symbols, indices, i, q);
        }
        DropSlot(indices[i]);
      }
      assert indices[..|indices|] == indices && indices[|indices|..] == [];
    }

    /** Files one slot under its parent scope if its name is live. */
    method IndexChild(idx: nat)
      requires idx < |symbols| && forall scope :: Get(byParentScope, scope) == Children(State(), idx, scope)
      modifies `byParentScope
      ensures forall scope :: Get(byParentScope, scope) == Children(State(), idx + 1, scope)
    {
      hide Children, Push, ParentScope, Get;
      ghost var before := byParentScope;
      var symbol := symbols[idx];
      if symbol.qualifiedName in byQualifiedName {
        var parent := FindParentScope(symbol.qualifiedName);
        byParentScope := Push(byParentScope, parent.GetOr(""), idx);
      }
      PushesChildren(State(), before, byParentScope, idx);
    }

    /** Rebuilds the children of every scope if something has changed. */
    method EnsureParentIndex()
      requires Valid()
      modifies `byParentScope, `parentIndexDirty
      ensures Valid() && !parentIndexDirty
    {
      if !parentIndexDirty {
        return;
      }
      hide Children;
      byParentScope := map[];
      forall scope ensures Get(byParentScope, scope) == Children(State(), 0, scope) {
      }
      for idx := 0 to |symbols|
        invariant forall scope :: Get(byParentScope, scope) == Children(State(), idx, scope)
      {
        IndexChild(idx);
      }
      parentIndexDirty := false;
    }
  }

  lemma NamedInSnoc(symbols: seq<IndexedSymbol>, slots: seq<nat>, i: nat, q: string)
    requires i < |slots|
    ensures NamedIn(symbols, slots[..i + 1], q) <==>
            NamedIn(symbols, slots[..i], q) || (slots[i] < |symbols| && symbols[slots[i]].qualifiedName == q)
  {
    assert forall k :: 0 <= k < i ==> slots[..i + 1][k] == slots[..i][k];
    assert slots[..i + 1][i] == slots[i];
  }
}
