/**
 * Publishing a store under a lock, one step at a time.
 *
 * The queue (channels/src/delivery.rs), the session store
 * (channels/src/session_store.rs) and the status board (channels/src/status.rs)
 * all save the same way: take a lock that shuts out every writer of the
 * in-memory value, copy the value, write a temporary file, rename it over the
 * real one. Threads are numbers; a step belongs to one thread; any step may
 * happen next. `T` is the value kept in memory.
 */
module Publish {
  import opened Wrappers

  /** Where a thread is in its save. */
  datatype Phase<T> =
    | Outside
    | Waiting                 // decided to save, has not got the lock
    | Locked(payload: T)      // holds the lock, has its copy
    | Writing(payload: T)     // the temporary file is open and incomplete
    | Ready(payload: T)       // the temporary file is complete, not yet renamed

  datatype Shared<T> = Shared(
    memory: T,
    history: seq<T>,           // every value memory has had in this process
    loadError: bool,
    phases: map<nat, Phase<T>>,
    temporary: File<T>,
    file: File<T>,
    origin: File<T>,           // the file as this process found it
    version: int,              // index into history of what this process published last, -1 if nothing
    saveFailed: bool,          // the save that finished last failed
    touched: bool)             // memory changed without asking for a save since then

  datatype Step<T> =
    | Change(t: nat, value: T)   // change memory under the lock and go on to save
    | Touch(value: T)            // change memory under the lock, no save
    | Resave(t: nat)             // go on to save what is there
    | Refuse(t: nat)             // load error, or the directory cannot be made
    | Acquire(t: nat)
    | Open(t: nat)
    | Write(t: nat)
    | FailWrite(t: nat)
    | Rename(t: nat)
    | FailRename(t: nat)

  function PhaseOf<T>(s: Shared<T>, t: nat): Phase<T> {
    if t in s.phases then s.phases[t] else Outside
  }

  predicate InLock<T>(p: Phase<T>) {
    p.Locked? || p.Writing? || p.Ready?
  }

  ghost predicate LockFree<T>(s: Shared<T>) {
    forall t: nat :: !InLock(PhaseOf(s, t))
  }

  function At<T>(s: Shared<T>, t: nat, p: Phase<T>): Shared<T> {
    s.(phases := s.phases[t := p])
  }

  ghost predicate Enabled<T>(s: Shared<T>, step: Step<T>) {
    match step
    case Change(t, _) => PhaseOf(s, t).Outside? && LockFree(s)
    case Touch(_) => LockFree(s)
    case Resave(t) => PhaseOf(s, t).Outside?
    case Refuse(t) => PhaseOf(s, t).Waiting?
    case Acquire(t) => PhaseOf(s, t).Waiting? && !s.loadError && LockFree(s)
    case Open(t) => PhaseOf(s, t).Locked?
    case Write(t) => PhaseOf(s, t).Writing?
    case FailWrite(t) => PhaseOf(s, t).Locked? || PhaseOf(s, t).Writing?
    case Rename(t) => PhaseOf(s, t).Ready?
    case FailRename(t) => PhaseOf(s, t).Ready?
  }

  function Apply<T>(s: Shared<T>, step: Step<T>): Shared<T> {
    match step
    case Change(t, value) => At(s, t, Waiting).(memory := value, history := s.history + [value])
    case Touch(value) => s.(memory := value, history := s.history + [value], touched := true)
    case Resave(t) => At(s, t, Waiting)
    case Refuse(t) => At(s, t, Outside).(saveFailed := true)
    case Acquire(t) => At(s, t, Locked(s.memory))
    case Open(t) =>
      if PhaseOf(s, t).Locked? then At(s, t, Writing(PhaseOf(s, t).payload)).(temporary := Partial) else s
    case Write(t) =>
      if PhaseOf(s, t).Writing? then
        At(s, t, Ready(PhaseOf(s, t).payload)).(temporary := Whole(PhaseOf(s, t).payload))
      else s
    case FailWrite(t) => At(s, t, Outside).(temporary := Partial, saveFailed := true)
    // The rename moves whatever the temporary file holds, not what the thread meant to write.
    case Rename(t) =>
      At(s, t, Outside).(file := s.temporary, temporary := Missing, version := |s.history| - 1,
                         saveFailed := false, touched := false)
    case FailRename(t) => At(s, t, Outside).(saveFailed := true)
  }

  /** A process that has just loaded its store. */
  function Fresh<T>(value: T, loadError: bool, file: File<T>, temporary: File<T>): Shared<T> {
    Shared(value, [value], loadError, map[], temporary, file, file, -1, false, false)
  }

  /** The file is what was found, or a value memory has had, and memory is the latest. */
  ghost predicate FileIsPast<T>(s: Shared<T>) {
    && |s.history| > 0 && s.history[|s.history| - 1] == s.memory
    && -1 <= s.version < |s.history|
    && s.file == (if s.version == -1 then s.origin else Whole(s.history[s.version]))
    && (s.loadError ==> s.version == -1)
  }

  ghost predicate OneInLock<T>(s: Shared<T>) {
    forall t, u: nat :: InLock(PhaseOf(s, t)) && InLock(PhaseOf(s, u)) ==> t == u
  }

  /** Who holds the lock has a copy of what is in memory now, and the temporary file is as far as its phase says. */
  ghost predicate PhasesAreTrue<T>(s: Shared<T>) {
    && (forall t: nat :: InLock(PhaseOf(s, t)) ==> PhaseOf(s, t).payload == s.memory && !s.loadError)
    && (forall t: nat :: PhaseOf(s, t).Writing? ==> s.temporary == Partial)
    && (forall t: nat :: PhaseOf(s, t).Ready? ==> s.temporary == Whole(s.memory))
  }

  /** The file is the memory, unless there is a reason. */
  ghost predicate Published<T>(s: Shared<T>) {
    || s.file == Whole(s.memory)
    || s.saveFailed || s.touched || |s.history| == 1
    || exists t: nat :: !PhaseOf(s, t).Outside?
  }

  ghost predicate Inv<T>(s: Shared<T>) {
    FileIsPast(s) && OneInLock(s) && PhasesAreTrue(s) && Published(s)
  }

  lemma FreshInv<T>(value: T, loadError: bool, file: File<T>, temporary: File<T>)
    ensures Inv(Fresh(value, loadError, file, temporary))
  {
  }

  /** A step changes the phase of its own thread only. */
  lemma PhasesAfter<T>(s: Shared<T>, step: Step<T>)
    ensures step.Touch? ==> forall u: nat :: PhaseOf(Apply(s, step), u) == PhaseOf(s, u)
    ensures !step.Touch? ==>
              forall u: nat :: u != step.t ==> PhaseOf(Apply(s, step), u) == PhaseOf(s, u)
  {
  }

  lemma StepKeepsFile<T>(s: Shared<T>, step: Step<T>)
    requires Inv(s) && Enabled(s, step)
    ensures FileIsPast(Apply(s, step))
  {
  }

  lemma StepKeepsLock<T>(s: Shared<T>, step: Step<T>)
    requires Inv(s) && Enabled(s, step)
    ensures OneInLock(Apply(s, step))
  {
    PhasesAfter(s, step);
  }

  lemma StepKeepsPhases<T>(s: Shared<T>, step: Step<T>)
    requires Inv(s) && Enabled(s, step)
    ensures PhasesAreTrue(Apply(s, step))
  {
    PhasesAfter(s, step);
  }

  lemma StepKeepsPublished<T>(s: Shared<T>, step: Step<T>)
    requires Inv(s) && Enabled(s, step)
    ensures Published(Apply(s, step))
  {
    var r := Apply(s, step);
    if !step.Touch? && PhaseOf(r, step.t).Outside? {
      assert r.file == Whole(r.memory) || r.saveFailed;
    }
  }

  lemma StepInv<T>(s: Shared<T>, step: Step<T>)
    requires Inv(s) && Enabled(s, step)
    ensures Inv(Apply(s, step))
    ensures s.version <= Apply(s, step).version
    ensures s.loadError ==> Apply(s, step).loadError && Apply(s, step).file == s.file
    ensures Apply(s, step).origin == s.origin
    ensures s.history <= Apply(s, step).history
  {
    StepKeepsFile(s, step);
    StepKeepsLock(s, step);
    StepKeepsPhases(s, step);
    StepKeepsPublished(s, step);
  }

  /** Memory changes by the two kinds of change only, to the value they bring; the file by a rename only. */
  lemma StepExactly<T>(s: Shared<T>, step: Step<T>)
    requires Inv(s) && Enabled(s, step)
    ensures Apply(s, step).memory == (match step case Change(_, value) => value case Touch(value) => value case _ => s.memory)
    ensures Apply(s, step).file == if step.Rename? then Whole(s.memory) else s.file
    ensures Apply(s, step).loadError == s.loadError
  {
  }

  /**
   * A save that nothing stops gets through. With the lock free and the store
   * readable, a change and then the four steps of its save are possible one after
   * another; they end with the new value in memory and in the file, the thread
   * outside, and no failure noted.
   */
  lemma SaveGetsThrough<T>(s: Shared<T>, t: nat, value: T)
    requires Inv(s) && !s.loadError && LockFree(s) && PhaseOf(s, t).Outside?
    ensures
      var changed := Apply(s, Change(t, value));
      var locked := Apply(changed, Acquire(t));
      var opened' := Apply(locked, Open(t));
      var written := Apply(opened', Write(t));
      var saved := Apply(written, Rename(t));
      && Enabled(s, Change(t, value)) && Enabled(changed, Acquire(t)) && Enabled(locked, Open(t))
      && Enabled(opened', Write(t)) && Enabled(written, Rename(t))
      && saved.memory == value && saved.file == Whole(value) && saved.temporary == Missing
      && PhaseOf(saved, t).Outside? && LockFree(saved) && !saved.saveFailed && !saved.touched
  {
    var changed := Apply(s, Change(t, value));
    PhasesAfter(s, Change(t, value));
    assert LockFree(changed);
    var locked := Apply(changed, Acquire(t));
    PhasesAfter(changed, Acquire(t));
    var opened' := Apply(locked, Open(t));
    PhasesAfter(locked, Open(t));
    var written := Apply(opened', Write(t));
    PhasesAfter(opened', Write(t));
    PhasesAfter(written, Rename(t));
    assert PhaseOf(Apply(written, Rename(t)), t).Outside?;
  }

  // ---------------------------------------------------------------- whole runs

  ghost predicate Next<T(!new)>(s: Shared<T>, r: Shared<T>) {
    exists step :: Enabled(s, step) && r == Apply(s, step)
  }

  ghost predicate IsRun<T(!new)>(run: seq<Shared<T>>) {
    && |run| > 0
    && (exists value, loadError, file, temporary :: run[0] == Fresh<T>(value, loadError, file, temporary))
    && forall i :: 0 <= i < |run| - 1 ==> Next(run[i], run[i + 1])
  }

  lemma {:induction false} RunInv<T(!new)>(run: seq<Shared<T>>, i: nat)
    requires IsRun(run) && i < |run|
    ensures Inv(run[i])
    ensures run[i].origin == run[0].file && run[i].loadError == run[0].loadError
    ensures run[0].loadError ==> run[i].file == run[0].file
  {
    if i == 0 {
      var value, loadError, file, temporary :| run[0] == Fresh<T>(value, loadError, file, temporary);
      FreshInv(value, loadError, file, temporary);
    } else {
      RunInv(run, i - 1);
      assert Next(run[i - 1], run[i - 1 + 1]);
      var step :| Enabled(run[i - 1], step) && run[i] == Apply(run[i - 1], step);
      StepInv(run[i - 1], step);
      assert run[i].loadError == run[i - 1].loadError;
    }
  }

  lemma {:induction false} VersionsGrow<T(!new)>(run: seq<Shared<T>>, i: nat, j: nat)
    requires IsRun(run) && i <= j < |run|
    ensures run[i].version <= run[j].version && run[i].history <= run[j].history
  {
    if i < j {
      VersionsGrow(run, i, j - 1);
      RunInv(run, j - 1);
      assert Next(run[j - 1], run[j - 1 + 1]);
      var step :| Enabled(run[j - 1], step) && run[j] == Apply(run[j - 1], step);
      StepInv(run[j - 1], step);
    }
  }

  /**
   * The publish protocol, at every point of every run of any number of threads:
   * the temporary file has at most one writer; the file is what the process
   * found or exactly some value memory once had; later files are never older;
   * a store that could not be read is never overwritten; and when no save is
   * under way, the last one to finish succeeded and nothing was changed without
   * asking for a save, the file is the memory.
   */
  lemma PublishIsSafe<T(!new)>(run: seq<Shared<T>>, i: nat, j: nat)
    requires IsRun(run) && i <= j < |run|
    ensures forall t, u: nat :: InLock(PhaseOf(run[j], t)) && InLock(PhaseOf(run[j], u)) ==> t == u
    ensures run[j].file == run[0].file || exists v :: 0 <= v < |run[j].history| && run[j].file == Whole(run[j].history[v])
    ensures run[i].version >= 0 ==>
              && run[i].version <= run[j].version < |run[j].history|
              && run[i].file == Whole(run[j].history[run[i].version])
              && run[j].file == Whole(run[j].history[run[j].version])
    ensures run[0].loadError ==> run[j].file == run[0].file
    ensures
      (forall t: nat :: PhaseOf(run[j], t).Outside?) && !run[j].saveFailed && !run[j].touched && |run[j].history| > 1
      ==> run[j].file == Whole(run[j].memory)
  {
    RunInv(run, i);
    RunInv(run, j);
    VersionsGrow(run, i, j);
    RunInv(run, 0);
  }
}
