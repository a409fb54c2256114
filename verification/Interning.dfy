/** Double-checked locking: interning strings, and numbering files, under every interleaving of the sections
    that run while a lock is held. */
module Interning {
  import opened Wrappers

  type Thread = nat
  type Name = nat

  // ---------------------------------------------------------------------------------------------
  // The interner
  // ---------------------------------------------------------------------------------------------

  datatype Table = Table(index: map<string, nat>, strings: seq<string>)

  /** Map and vector are each other's inverse. */
  ghost predicate Inverse(t: Table) {
    && (forall s :: s in t.index ==> t.index[s] < |t.strings| && t.strings[t.index[s]] == s)
    && (forall i :: 0 <= i < |t.strings| ==> t.strings[i] in t.index && t.index[t.strings[i]] == i)
  }

  function Lookup(t: Table, name: Name): Option<string> {
    if name < |t.strings| then Some(t.strings[name]) else None
  }

  /** The section under the write lock: checks again, and inserts if the string is still missing. */
  function Inserted(t: Table, s: string): Table {
    if s in t.index then t else Table(t.index[s := |t.strings|], t.strings + [s])
  }

  /** Where a call of `intern` stands: not started, before the read section, or before the write section. */
  datatype Phase = Idle | BeforeRead(wanted: string) | BeforeWrite(wanted: string)

  datatype Step = Call(thread: Thread, s: string) | ReadSection(thread: Thread) | WriteSection(thread: Thread)

  /** The table, the calls in flight, and every answer given so far, oldest first. */
  datatype System = System(table: Table, phases: map<Thread, Phase>, answers: seq<(string, Name)>)

  const START := System(Table(map[], []), map[], [])

  function PhaseOf(sys: System, thread: Thread): Phase {
    if thread in sys.phases then sys.phases[thread] else Idle
  }

  function Answered(sys: System, thread: Thread, table: Table, s: string): System
    requires s in table.index
  {
    System(table, sys.phases[thread := Idle], sys.answers + [(s, table.index[s])])
  }

  /** One section of one thread; a step that the thread cannot take leaves everything as it is. */
  function Next(sys: System, step: Step): System {
    match step
    case Call(thread, s) =>
      if PhaseOf(sys, thread).Idle? then sys.(phases := sys.phases[thread := BeforeRead(s)]) else sys
    case ReadSection(thread) =>
      var phase := PhaseOf(sys, thread);
      if !phase.BeforeRead? then sys
      else if phase.wanted in sys.table.index then Answered(sys, thread, sys.table, phase.wanted)
      else sys.(phases := sys.phases[thread := BeforeWrite(phase.wanted)])
    case WriteSection(thread) =>
      var phase := PhaseOf(sys, thread);
      if !phase.BeforeWrite? then sys else Answered(sys, thread, Inserted(sys.table, phase.wanted), phase.wanted)
  }

  function Run(steps: seq<Step>): System {
    if steps == [] then START else Next(Run(steps[..|steps| - 1]), steps[|steps| - 1])
  }

  ghost predicate Coherent(sys: System) {
    && Inverse(sys.table)
    && (forall k :: 0 <= k < |sys.answers| ==>
          sys.answers[k].0 in sys.table.index && sys.table.index[sys.answers[k].0] == sys.answers[k].1)
  }

  lemma InsertedIsInverse(t: Table, s: string)
    requires Inverse(t)
    ensures Inverse(Inserted(t, s)) && s in Inserted(t, s).index
    ensures forall x :: x in t.index ==> x in Inserted(t, s).index && Inserted(t, s).index[x] == t.index[x]
  {
  }

  lemma StepKeepsCoherent(sys: System, step: Step)
    requires Coherent(sys)
    ensures Coherent(Next(sys, step)) && sys.answers <= Next(sys, step).answers
  {
    if step.WriteSection? && PhaseOf(sys, step.thread).BeforeWrite? {
      InsertedIsInverse(sys.table, PhaseOf(sys, step.thread).wanted);
    }
  }

  lemma {:induction false} RunIsCoherent(steps: seq<Step>)
    ensures Coherent(Run(steps))
  {
    if steps != [] {
      RunIsCoherent(steps[..|steps| - 1]);
      StepKeepsCoherent(Run(steps[..|steps| - 1]), steps[|steps| - 1]);
    }
  }

  /** Whatever the interleaving, two answers carry the same name exactly when they are for the same string, and
      every name leads back to its string. */
  lemma NamesIdentifyStrings(steps: seq<Step>, i: nat, j: nat)
    requires i < |Run(steps).answers| && j < |Run(steps).answers|
    ensures var answers := Run(steps).answers;
      && (answers[i].0 == answers[j].0 <==> answers[i].1 == answers[j].1)
      && Lookup(Run(steps).table, answers[i].1) == Some(answers[i].0)
  {
    hide Run;
    RunIsCoherent(steps);
  }

  /** Answers are never taken back. */
  lemma {:induction false} AnswersStay(steps: seq<Step>, n: nat)
    requires n <= |steps|
    ensures Run(steps[..n]).answers <= Run(steps).answers
    decreases |steps|
  {
    hide Next, Coherent;
    if n == |steps| {
      assert steps[..n] == steps;
    } else {
      var before := steps[..|steps| - 1];
      AnswersStay(before, n);
      assert before[..n] == steps[..n];
      RunIsCoherent(before);
      StepKeepsCoherent(Run(before), steps[|steps| - 1]);
    }
  }

  /** The two sections as they run under the locks. */
  class Interner {
    var nameIndex: map<string, nat>
    var strings: seq<string>

    function State(): Table
      reads this
    {
      Table(nameIndex, strings)
    }

    constructor ()
      ensures State() == START.table
    {
      nameIndex, strings := map[], [];
    }

    method TryRead(s: string) returns (r: Option<Name>)
      ensures r.Some? <==> s in nameIndex
      ensures r.Some? ==> r.value == nameIndex[s]
      ensures Inverse(State()) ==> forall name: Name :: r == Some(name) <==> Lookup(State(), name) == Some(s)
    {
      if s in nameIndex {
        return Some(nameIndex[s]);
      }
      return None;
    }

    method RecheckAndInsert(s: string) returns (r: Name)
      modifies this
      ensures State() == Inserted(old(State()), s) && s in State().index && r == State().index[s]
      ensures Inverse(old(State())) ==> Inverse(State()) && Lookup(State(), r) == Some(s)
    {
      if s in nameIndex {
        return nameIndex[s];
      }
      r := |strings|;
      strings := strings + [s];
      nameIndex := nameIndex[s := r];
    }
  }

  // ---------------------------------------------------------------------------------------------
  // The file set
  // ---------------------------------------------------------------------------------------------

  datatype Files = Files(pathToId: map<string, nat>, idToPath: map<nat, string>, contents: map<nat, string>,
                         nextId: nat)

  /** The section of `file_id` under the write lock. */
  function WithPath(f: Files, path: string): Files {
    if path in f.pathToId then f
    else f.(pathToId := f.pathToId[path := f.nextId], idToPath := f.idToPath[f.nextId := path], nextId := f.nextId + 1)
  }

  function WithoutFile(f: Files, file: nat): Files {
    var g := if file in f.idToPath
             then f.(pathToId := f.pathToId - {f.idToPath[file]}, idToPath := f.idToPath - {file}) else f;
    g.(contents := g.contents - {file})
  }

  datatype FileStep =
    | CallFileId(thread: Thread, path: string) | ReadFileId(thread: Thread) | WriteFileId(thread: Thread)
    | SetContents(file: nat, text: string) | RemoveId(file: nat)

  /** The files, the calls of `file_id` in flight, and every pair of path and id that was answered. */
  datatype FileSystem = FileSystem(files: Files, phases: map<Thread, Phase>, answers: seq<(string, nat)>)

  const NO_FILES := FileSystem(Files(map[], map[], map[], 0), map[], [])

  function FilePhase(sys: FileSystem, thread: Thread): Phase {
    if thread in sys.phases then sys.phases[thread] else Idle
  }

  function FileAnswered(sys: FileSystem, thread: Thread, files: Files, path: string): FileSystem
    requires path in files.pathToId
  {
    FileSystem(files, sys.phases[thread := Idle], sys.answers + [(path, files.pathToId[path])])
  }

  function NextFile(sys: FileSystem, step: FileStep): FileSystem {
    match step
    case CallFileId(thread, path) =>
      if FilePhase(sys, thread).Idle? then sys.(phases := sys.phases[thread := BeforeRead(path)]) else sys
    case ReadFileId(thread) =>
      var phase := FilePhase(sys, thread);
      if !phase.BeforeRead? then sys
      else if phase.wanted in sys.files.pathToId then FileAnswered(sys, thread, sys.files, phase.wanted)
      else sys.(phases := sys.phases[thread := BeforeWrite(phase.wanted)])
    case WriteFileId(thread) =>
      var phase := FilePhase(sys, thread);
      if !phase.BeforeWrite? then sys else FileAnswered(sys, thread, WithPath(sys.files, phase.wanted), phase.wanted)
    case SetContents(file, text) => sys.(files := sys.files.(contents := sys.files.contents[file := text]))
    case RemoveId(file) => sys.(files := WithoutFile(sys.files, file))
  }

  function RunFiles(steps: seq<FileStep>): FileSystem {
    if steps == [] then NO_FILES else NextFile(RunFiles(steps[..|steps| - 1]), steps[|steps| - 1])
  }

  /** The two maps are inverse, and ids are below the next one to be given. */
  ghost predicate PathsInverse(f: Files) {
    && (forall p :: p in f.pathToId ==> f.pathToId[p] in f.idToPath && f.idToPath[f.pathToId[p]] == p)
    && (forall i :: i in f.idToPath ==> i < f.nextId && f.idToPath[i] in f.pathToId && f.pathToId[f.idToPath[i]] == i)
  }

  /** An id that was ever answered is below the next one, belongs to one path for good, and is either still that
      path's id or no file's id any more. */
  ghost predicate AnswersHold(sys: FileSystem) {
    && (forall k :: 0 <= k < |sys.answers| ==> AnswerHolds(sys.files, sys.answers[k]))
    && (forall j, k :: 0 <= j < |sys.answers| && 0 <= k < |sys.answers| && sys.answers[j].1 == sys.answers[k].1 ==>
          sys.answers[j].0 == sys.answers[k].0)
  }

  ghost predicate AnswerHolds(f: Files, answer: (string, nat)) {
    answer.1 < f.nextId && (answer.1 in f.idToPath ==> f.idToPath[answer.1] == answer.0)
  }

  ghost predicate FilesCoherent(sys: FileSystem) {
    PathsInverse(sys.files) && AnswersHold(sys)
  }

  lemma WithPathInverse(f: Files, path: string)
    requires PathsInverse(f)
    ensures PathsInverse(WithPath(f, path)) && path in WithPath(f, path).pathToId
    ensures forall a: (string, nat) :: AnswerHolds(f, a) ==> AnswerHolds(WithPath(f, path), a)
  {
  }

  lemma WithoutFileInverse(f: Files, file: nat)
    requires PathsInverse(f)
    ensures PathsInverse(WithoutFile(f, file)) && file !in WithoutFile(f, file).idToPath
    ensures forall a: (string, nat) :: AnswerHolds(f, a) ==> AnswerHolds(WithoutFile(f, file), a)
  {
  }

  /** A new answer does not clash with an earlier one: an id above all earlier ones, or one that is in use. */
  lemma AnsweringHolds(sys: FileSystem, thread: Thread, files: Files, path: string)
    requires AnswersHold(sys) && PathsInverse(files) && path in files.pathToId
    requires forall a: (string, nat) :: AnswerHolds(sys.files, a) ==> AnswerHolds(files, a)
    ensures FilesCoherent(FileAnswered(sys, thread, files, path))
  {
    var r, a := FileAnswered(sys, thread, files, path), (path, files.pathToId[path]);
    assert AnswerHolds(files, a);
    forall k | 0 <= k < |r.answers| ensures AnswerHolds(files, r.answers[k]) {
      assert k < |sys.answers| ==> AnswerHolds(sys.files, sys.answers[k]) && r.answers[k] == sys.answers[k];
    }
  }

  lemma FileStepKeeps(sys: FileSystem, step: FileStep)
    requires FilesCoherent(sys)
    ensures FilesCoherent(NextFile(sys, step)) && sys.files.nextId <= NextFile(sys, step).files.nextId
  {
    hide PathsInverse;
    match step
    case CallFileId(_, _) =>
    case ReadFileId(thread) =>
      var phase := FilePhase(sys, thread);
      if phase.BeforeRead? && phase.wanted in sys.files.pathToId {
        AnsweringHolds(sys, thread, sys.files, phase.wanted);
      }
    case WriteFileId(thread) =>
      var phase := FilePhase(sys, thread);
      if phase.BeforeWrite? {
        WithPathInverse(sys.files, phase.wanted);
        AnsweringHolds(sys, thread, WithPath(sys.files, phase.wanted), phase.wanted);
      }
    case SetContents(file, text) =>
      ContentsDoNotMatter(sys.files, sys.files.(contents := sys.files.contents[file := text]));
    case RemoveId(file) =>
      WithoutFileInverse(sys.files, file);
  }

  lemma ContentsDoNotMatter(f: Files, g: Files)
    requires PathsInverse(f) && g == f.(contents := g.contents)
    ensures PathsInverse(g) && forall a: (string, nat) :: AnswerHolds(f, a) ==> AnswerHolds(g, a)
  {
  }

  lemma {:induction false} FileRunIsCoherent(steps: seq<FileStep>)
    ensures FilesCoherent(RunFiles(steps))
  {
    hide NextFile, AnswersHold, PathsInverse;
    if steps == [] {
      NoFilesCoherent();
    } else {
      FileRunIsCoherent(steps[..|steps| - 1]);
      FileStepKeeps(RunFiles(steps[..|steps| - 1]), steps[|steps| - 1]);
    }
  }

  lemma NoFilesCoherent()
    ensures FilesCoherent(NO_FILES)
  {
  }

  /** Whatever the interleaving, an id is answered for one path only, also across removals: a path that comes
      back after its removal gets an id that was never answered before. */
  lemma FileIdsAreNeverReused(steps: seq<FileStep>, j: nat, k: nat)
    requires j < |RunFiles(steps).answers| && k < |RunFiles(steps).answers|
    ensures var sys := RunFiles(steps);
      && (sys.answers[j].1 == sys.answers[k].1 ==> sys.answers[j].0 == sys.answers[k].0)
      && PathsInverse(sys.files)
  {
    hide RunFiles;
    FileRunIsCoherent(steps);
  }

  /** After a removal the next answer for the same path is a new id. */
  lemma RemovedPathGetsNewId(steps: seq<FileStep>, file: nat, path: string, k: nat)
    requires k < |RunFiles(steps).answers|
    ensures var removed := WithoutFile(RunFiles(steps).files, file);
      path !in removed.pathToId ==> WithPath(removed, path).pathToId[path] != RunFiles(steps).answers[k].1
  {
    hide RunFiles;
    FileRunIsCoherent(steps);
    WithoutFileInverse(RunFiles(steps).files, file);
    assert AnswerHolds(RunFiles(steps).files, RunFiles(steps).answers[k]);
  }

  /** The sections as they run under the locks. */
  class FileSet {
    var pathToId: map<string, nat>
    var idToPath: map<nat, string>
    var contents: map<nat, string>
    var nextId: nat

    function State(): Files
      reads this
    {
      Files(pathToId, idToPath, contents, nextId)
    }

    constructor ()
      ensures State() == NO_FILES.files
    {
      pathToId, idToPath, contents, nextId := map[], map[], map[], 0;
    }

    method TryRead(path: string) returns (r: Option<nat>)
      ensures r.Some? <==> path in pathToId
      ensures r.Some? ==> r.value == pathToId[path]
      ensures PathsInverse(State()) ==> forall id: nat :: r == Some(id) <==> id in idToPath && idToPath[id] == path
    {
      if path in pathToId {
        return Some(pathToId[path]);
      }
      return None;
    }

    method RecheckAndAssign(path: string) returns (id: nat)
      modifies this
      ensures State() == WithPath(old(State()), path) && path in pathToId && id == pathToId[path]
      ensures PathsInverse(old(State())) ==> PathsInverse(State()) && id in idToPath && idToPath[id] == path
    {
      if path in pathToId {
        return pathToId[path];
      }
      id := nextId;
      nextId := nextId + 1;
      pathToId := pathToId[path := id];
      idToPath := idToPath[id := path];
    }

    method Remove(file: nat)
      modifies this
      ensures State() == WithoutFile(old(State()), file)
      ensures PathsInverse(old(State())) ==> PathsInverse(State()) && file !in idToPath && file !in pathToId.Values
    {
      if file in idToPath {
        var path := idToPath[file];
        idToPath := idToPath - {file};
        pathToId := pathToId - {path};
      }
      contents := contents - {file};
    }
  }
}
