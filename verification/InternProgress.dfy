/** Calls of the interner and of the file set under any interleaving: each one that goes through its sections is
    answered for what it asked for, and nothing else is ever answered. */
module InternProgress {
  import opened Wrappers
  import opened Interning

  // ---------------------------------------------------------------------------------------------
  // The interner
  // ---------------------------------------------------------------------------------------------

  /** Between two moments the thread only makes further calls, which find it busy. */
  ghost predicate OnlyCalls(steps: seq<Step>, thread: Thread, start: nat, end: nat) {
    forall k :: start <= k < end && k < |steps| && steps[k].thread == thread ==> steps[k].Call?
  }

  lemma {:induction false} PhaseStays(steps: seq<Step>, thread: Thread, start: nat, end: nat)
    requires start <= end <= |steps| && OnlyCalls(steps, thread, start, end)
    requires !PhaseOf(Run(steps[..start]), thread).Idle?
    ensures PhaseOf(Run(steps[..end]), thread) == PhaseOf(Run(steps[..start]), thread)
    decreases end
  {
    if start < end {
      PhaseStays(steps, thread, start, end - 1);
      RunNext(steps, end - 1);
    }
  }

  lemma RunNext(steps: seq<Step>, n: nat)
    requires n < |steps|
    ensures Run(steps[..n + 1]) == Next(Run(steps[..n]), steps[n])
  {
    assert steps[..n + 1][..n] == steps[..n] && steps[..n + 1][n] == steps[n];
  }

  ghost predicate IsAnswered(sys: System, s: string) {
    exists k :: 0 <= k < |sys.answers| && sys.answers[k].0 == s
  }

  lemma AnsweredStays(steps: seq<Step>, n: nat, s: string)
    requires n <= |steps| && IsAnswered(Run(steps[..n]), s)
    ensures IsAnswered(Run(steps), s)
  {
    hide Run;
    AnswersStay(steps, n);
  }

  /** An idle thread calls, and later runs its read section and then its write section. Whatever other threads do
      before, between and after, and whatever the thread itself tries to call in between, its string is answered. */
  lemma CallIsAnswered(steps: seq<Step>, thread: Thread, s: string, call: nat, read: nat, write: nat)
    requires call < read < write < |steps|
    requires steps[call] == Call(thread, s) && PhaseOf(Run(steps[..call]), thread).Idle?
    requires steps[read] == ReadSection(thread) && OnlyCalls(steps, thread, call + 1, read)
    requires steps[write] == WriteSection(thread) && OnlyCalls(steps, thread, read + 1, write)
    ensures IsAnswered(Run(steps), s)
  {
    hide Run, OnlyCalls, IsAnswered;
    RunNext(steps, call);
    PhaseStays(steps, thread, call + 1, read);
    RunNext(steps, read);
    var sys := Run(steps[..read]);
    if s in sys.table.index {
      NewestIsAnswered(sys, thread, sys.table, s);
      AnsweredStays(steps, read + 1, s);
    } else {
      PhaseStays(steps, thread, read + 1, write);
      RunNext(steps, write);
      var late := Run(steps[..write]);
      NewestIsAnswered(late, thread, Inserted(late.table, s), s);
      AnsweredStays(steps, write + 1, s);
    }
  }

  lemma NewestIsAnswered(sys: System, thread: Thread, table: Table, s: string)
    requires s in table.index
    ensures IsAnswered(Answered(sys, thread, table, s), s)
  {
    assert Answered(sys, thread, table, s).answers[|sys.answers|].0 == s;
  }

  ghost predicate WasCalled(steps: seq<Step>, s: string) {
    exists k :: 0 <= k < |steps| && steps[k].Call? && steps[k].s == s
  }

  ghost predicate OnlyCalled(steps: seq<Step>, sys: System) {
    && (forall k :: 0 <= k < |sys.answers| ==> WasCalled(steps, sys.answers[k].0))
    && (forall t :: t in sys.phases && !sys.phases[t].Idle? ==> WasCalled(steps, sys.phases[t].wanted))
  }

  lemma CalledStays(steps: seq<Step>, step: Step, s: string)
    ensures WasCalled(steps, s) || step == Call(step.thread, s) ==> WasCalled(steps + [step], s)
  {
    if WasCalled(steps, s) {
      var k :| 0 <= k < |steps| && steps[k].Call? && steps[k].s == s;
      assert (steps + [step])[k] == steps[k];
    }
    assert (steps + [step])[|steps|] == step;
  }

  /** Only strings that were asked for are answered. */
  lemma {:induction false} AnswersWereAsked(steps: seq<Step>)
    ensures OnlyCalled(steps, Run(steps))
  {
    hide WasCalled;
    if steps != [] {
      var before, step := steps[..|steps| - 1], steps[|steps| - 1];
      AnswersWereAsked(before);
      assert steps == before + [step];
      forall s ensures WasCalled(before, s) || step == Call(step.thread, s) ==> WasCalled(steps, s) {
        CalledStays(before, step, s);
      }
    }
  }

  // ---------------------------------------------------------------------------------------------
  // The file set
  // ---------------------------------------------------------------------------------------------

  /** The thread of a step; setting contents and removing are no part of any call. */
  ghost predicate IsStepOf(step: FileStep, thread: Thread) {
    match step
    case CallFileId(t, _) => t == thread
    case ReadFileId(t) => t == thread
    case WriteFileId(t) => t == thread
    case _ => false
  }

  ghost predicate OnlyFileCalls(steps: seq<FileStep>, thread: Thread, start: nat, end: nat) {
    forall k :: start <= k < end && k < |steps| && IsStepOf(steps[k], thread) ==> steps[k].CallFileId?
  }

  lemma {:induction false} FilePhaseStays(steps: seq<FileStep>, thread: Thread, start: nat, end: nat)
    requires start <= end <= |steps| && OnlyFileCalls(steps, thread, start, end)
    requires !FilePhase(RunFiles(steps[..start]), thread).Idle?
    ensures FilePhase(RunFiles(steps[..end]), thread) == FilePhase(RunFiles(steps[..start]), thread)
    decreases end
  {
    if start < end {
      FilePhaseStays(steps, thread, start, end - 1);
      RunFilesNext(steps, end - 1);
    }
  }

  lemma RunFilesNext(steps: seq<FileStep>, n: nat)
    requires n < |steps|
    ensures RunFiles(steps[..n + 1]) == NextFile(RunFiles(steps[..n]), steps[n])
  {
    assert steps[..n + 1][..n] == steps[..n] && steps[..n + 1][n] == steps[n];
  }

  /** The newest answer is for the path, and leads back to it at that moment. */
  ghost predicate AnswersNow(sys: FileSystem, path: string) {
    && sys.answers != [] && sys.answers[|sys.answers| - 1].0 == path
    && sys.answers[|sys.answers| - 1].1 in sys.files.idToPath
    && sys.files.idToPath[sys.answers[|sys.answers| - 1].1] == path
  }

  lemma NewestFileAnswer(sys: FileSystem, thread: Thread, files: Files, path: string)
    requires PathsInverse(files) && path in files.pathToId
    ensures AnswersNow(FileAnswered(sys, thread, files, path), path)
  {
  }

  /** An idle thread asks for a path's id and later runs its two sections. Whatever else happens, removals of that very
      path included, one of the two sections answers it with an id that leads back to the path at that moment. */
  lemma FileCallIsAnswered(steps: seq<FileStep>, thread: Thread, path: string, call: nat, read: nat, write: nat)
    requires call < read < write < |steps|
    requires steps[call] == CallFileId(thread, path) && FilePhase(RunFiles(steps[..call]), thread).Idle?
    requires steps[read] == ReadFileId(thread) && OnlyFileCalls(steps, thread, call + 1, read)
    requires steps[write] == WriteFileId(thread) && OnlyFileCalls(steps, thread, read + 1, write)
    ensures AnswersNow(RunFiles(steps[..read + 1]), path) || AnswersNow(RunFiles(steps[..write + 1]), path)
  {
    hide RunFiles, OnlyFileCalls, AnswersNow, PathsInverse;
    RunFilesNext(steps, call);
    FilePhaseStays(steps, thread, call + 1, read);
    RunFilesNext(steps, read);
    var sys := RunFiles(steps[..read]);
    FileRunIsCoherent(steps[..read]);
    if path in sys.files.pathToId {
      NewestFileAnswer(sys, thread, sys.files, path);
    } else {
      FilePhaseStays(steps, thread, read + 1, write);
      RunFilesNext(steps, write);
      FileRunIsCoherent(steps[..write]);
      var late := RunFiles(steps[..write]);
      WithPathInverse(late.files, path);
      NewestFileAnswer(late, thread, WithPath(late.files, path), path);
    }
  }

  ghost predicate FileWasCalled(steps: seq<FileStep>, path: string) {
    exists k :: 0 <= k < |steps| && steps[k].CallFileId? && steps[k].path == path
  }

  ghost predicate OnlyFilesCalled(steps: seq<FileStep>, sys: FileSystem) {
    && (forall k :: 0 <= k < |sys.answers| ==> FileWasCalled(steps, sys.answers[k].0))
    && (forall t :: t in sys.phases && !sys.phases[t].Idle? ==> FileWasCalled(steps, sys.phases[t].wanted))
  }

  lemma FileCalledStays(steps: seq<FileStep>, step: FileStep, path: string)
    ensures FileWasCalled(steps, path) || (step.CallFileId? && step.path == path) ==>
              FileWasCalled(steps + [step], path)
  {
    if FileWasCalled(steps, path) {
      var k :| 0 <= k < |steps| && steps[k].CallFileId? && steps[k].path == path;
      assert (steps + [step])[k] == steps[k];
    }
    assert (steps + [step])[|steps|] == step;
  }

  /** Only paths that were asked for are answered. */
  lemma {:induction false} FileAnswersWereAsked(steps: seq<FileStep>)
    ensures OnlyFilesCalled(steps, RunFiles(steps))
  {
    hide FileWasCalled, WithPath, WithoutFile;
    if steps != [] {
      var before, step := steps[..|steps| - 1], steps[|steps| - 1];
      FileAnswersWereAsked(before);
      assert steps == before + [step];
      forall path ensures FileWasCalled(before, path) || (step.CallFileId? && step.path == path) ==>
                            FileWasCalled(steps, path) {
        FileCalledStays(before, step, path);
      }
    }
  }
}
