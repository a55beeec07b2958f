/**
 * The durable queue under threads, failing saves, crashes and reloads
 * (channels/src/delivery.rs with channels/src/outbox.rs).
 *
 * One process at a time owns the file. Its threads enqueue, drain and prune;
 * each operation changes the list under the lock, lets go, and then saves
 * through the steps of `Publish`. A crash takes the memory and every thread
 * with it; a restart loads whatever the file holds.
 */
module DeliveryProtocol {
  import opened Wrappers
  import opened Sequences
  import opened Delivery
  import ErrorText
  import opened Publish

  /** What a thread is in the middle of. */
  datatype Job =
    | Adding(id: string)                                              // enqueue, list changed, save outstanding
    | Draining(todo: Queue)                                           // between two attempts of a pass
    | Recording(todo: Queue, id: string, failure: Option<string>)     // the platform has answered for `id`
    | Pruning

  datatype System = System(
    alive: bool,
    shared: Shared<Queue>,
    jobs: map<nat, Job>,
    acknowledged: set<string>,   // ids whose enqueue returned Ok
    accepted: set<string>,       // ids some attempt got accepted by the platform
    abandoned: set<string>)      // ids some attempt ended in the failed state

  datatype Event =
    | Push(t: nat, entry: QueuedDelivery)
    | StartPass(t: nat, now: int)
    | EndPass(t: nat)
    | Answer(t: nat, failure: Option<string>)   // the platform answers for the head of the pass
    | Record(t: nat, now: int)                  // record_success or record_failure
    | Prune(t: nat)
    | SaveStep(step: Step<Queue>)               // one step of a save under way
    | Crash
    | Restart(readable: bool)

  predicate HasJob(s: System, t: nat) {
    t in s.jobs
  }

  /** The save of thread `t` is over after this step. */
  predicate EndsSave(step: Step<Queue>) {
    step.Refuse? || step.FailWrite? || step.Rename? || step.FailRename?
  }

  /** Recording this failure gives a message of the list up: the failure is permanent, or one attempt too many. */
  ghost predicate GivesUp(q: Queue, id: string, error: string) {
    var at := Find(q, id);
    at < |q| && (ErrorText.IsPermanentError(error) || q[at].attempts + 1 >= MAX_ATTEMPTS)
  }

  ghost predicate Possible(s: System, e: Event) {
    match e
    case Crash => s.alive
    case Restart(readable) => !s.alive
    case Push(t, entry) =>
      && s.alive && !HasJob(s, t)
      && entry.state == Pending && entry.attempts == 0
      && Enabled(s.shared, Change(t, Enqueued(s.shared.memory, entry)))
    case StartPass(t, now) => s.alive && !HasJob(s, t) && LockFree(s.shared)
    case EndPass(t) => s.alive && HasJob(s, t) && s.jobs[t] == Draining([]) && PhaseOf(s.shared, t).Outside?
    case Answer(t, failure) =>
      && s.alive && HasJob(s, t) && s.jobs[t].Draining? && s.jobs[t].todo != []
      && PhaseOf(s.shared, t).Outside?
    case Record(t, now) => s.alive && HasJob(s, t) && s.jobs[t].Recording? && Enabled(s.shared, Change(t, s.shared.memory))
    case Prune(t) => s.alive && !HasJob(s, t) && Enabled(s.shared, Change(t, s.shared.memory))
    case SaveStep(step) =>
      && s.alive && !step.Change? && !step.Touch? && !step.Resave?
      && HasJob(s, step.t) && Enabled(s.shared, step)
  }

  ghost function Do(s: System, e: Event): System
    requires Possible(s, e)
  {
    match e
    case Crash => s.(alive := false, jobs := map[])
    case Restart(readable) =>
      var loadError := !s.shared.file.Missing? && (!readable || s.shared.file.Partial?);
      var loaded := if s.shared.file.Whole? && readable then s.shared.file.content else [];
      s.(alive := true, jobs := map[], shared := Fresh(loaded, loadError, s.shared.file, s.shared.temporary))
    case Push(t, entry) =>
      s.(shared := Apply(s.shared, Change(t, Enqueued(s.shared.memory, entry))), jobs := s.jobs[t := Adding(entry.id)])
    case StartPass(t, now) => s.(jobs := s.jobs[t := Draining(DueOf(s.shared.memory, now))])
    case EndPass(t) => s.(jobs := s.jobs - {t})
    case Answer(t, failure) =>
      var id := s.jobs[t].todo[0].id;
      s.(jobs := s.jobs[t := Recording(s.jobs[t].todo[1..], id, failure)],
         accepted := if failure.None? then s.accepted + {id} else s.accepted)
    case Record(t, now) =>
      var job := s.jobs[t];
      var q := s.shared.memory;
      match job.failure {
        case None =>
          s.(shared := Apply(s.shared, Change(t, RecordSuccess(q, job.id))), jobs := s.jobs[t := Draining(job.todo)])
        case Some(error) =>
          s.(shared := Apply(s.shared, Change(t, RecordFailure(q, job.id, error, now))), jobs := s.jobs[t := Draining(job.todo)],
             abandoned := if GivesUp(q, job.id, error) then s.abandoned + {job.id} else s.abandoned)
      }
    case Prune(t) => s.(shared := Apply(s.shared, Change(t, Pruned(s.shared.memory))), jobs := s.jobs[t := Pruning])
    case SaveStep(step) =>
      var after := s.(shared := Apply(s.shared, step));
      if !EndsSave(step) || s.jobs[step.t].Draining? then after
      else
        after.(jobs := s.jobs - {step.t},
               acknowledged :=
                 if step.Rename? && s.jobs[step.t].Adding? then s.acknowledged + {s.jobs[step.t].id} else s.acknowledged)
  }

  // ---------------------------------------------------------------- what an event changes

  /**
   * The books, event by event. A message counts as acknowledged by the rename
   * that ends the save of its enqueue, as accepted by the platform's answer, and
   * as given up by recording a failure that is permanent or the fifth for the
   * first entry with its id; and by nothing else.
   */
  lemma BooksExactly(s: System, e: Event, id: string)
    requires Possible(s, e)
    ensures id in Do(s, e).acknowledged <==>
              || id in s.acknowledged
              || (e.SaveStep? && e.step.Rename? && s.jobs[e.step.t] == Adding(id))
    ensures id in Do(s, e).accepted <==>
              || id in s.accepted
              || (e.Answer? && e.failure.None? && s.jobs[e.t].todo[0].id == id)
    ensures id in Do(s, e).abandoned <==>
              || id in s.abandoned
              || (&& e.Record? && s.jobs[e.t].id == id && s.jobs[e.t].failure.Some?
                  && var q := s.shared.memory;
                  exists i :: 0 <= i < |q| && q[i].id == id && (forall k :: 0 <= k < i ==> q[k].id != id)
                    && (ErrorText.IsPermanentError(s.jobs[e.t].failure.value) || q[i].attempts + 1 >= 5))
  {
    if e.Record? {
      var at := Find(s.shared.memory, s.jobs[e.t].id);
      assert at < |s.shared.memory| ==> s.shared.memory[at].id == s.jobs[e.t].id;
    }
  }

  lemma SaveChangesTheFile(s: System, step: Step<Queue>)
    requires Safe(s) && Possible(s, SaveStep(step))
    ensures Do(s, SaveStep(step)).shared == Apply(s.shared, step)
    ensures Apply(s.shared, step).memory == s.shared.memory
    ensures Apply(s.shared, step).file == if step.Rename? then Whole(s.shared.memory) else s.shared.file
    ensures Do(s, SaveStep(step)).alive
  {
    StepExactly(s.shared, step);
  }

  /** The list in memory changes by queueing, recording, pruning and restarting only; the file by a rename only, and becomes what memory is. */
  lemma StoresExactly(s: System, e: Event)
    requires Safe(s) && Possible(s, e) && !e.Restart?
    ensures
      var q, after := s.shared.memory, Do(s, e).shared.memory;
      match e
      case Push(_, entry) => after == Enqueued(q, entry)
      case Prune(_) => after == Keep(IsPending, q)
      case Record(t, now) =>
        after == (if s.jobs[t].failure.None? then RecordSuccess(q, s.jobs[t].id)
                  else RecordFailure(q, s.jobs[t].id, s.jobs[t].failure.value, now))
      case _ => after == q
    ensures Do(s, e).shared.file == if e.SaveStep? && e.step.Rename? then Whole(s.shared.memory) else s.shared.file
    ensures e.Crash? <==> !Do(s, e).alive
  {
    if e.SaveStep? {
      SaveChangesTheFile(s, e.step);
    } else {
      OthersLeaveTheFile(s, e);
    }
  }

  lemma OthersLeaveTheFile(s: System, e: Event)
    requires Possible(s, e) && !e.Restart? && !e.SaveStep?
    ensures Do(s, e).shared.file == s.shared.file
    ensures e.Crash? <==> !Do(s, e).alive
  {
  }

  /** A restart holds what the file holds, unless it cannot be read; then it starts empty and remembers that. */
  lemma RestartExactly(s: System, readable: bool)
    requires !s.alive
    ensures
      var r := Do(s, Restart(readable));
      && r.alive && r.jobs == map[] && r.shared.file == s.shared.file
      && (s.shared.file.Missing? ==> r.shared.memory == [] && !r.shared.loadError)
      && (s.shared.file.Whole? && readable ==> r.shared.memory == s.shared.file.content && !r.shared.loadError)
      && (s.shared.file.Partial? || (s.shared.file.Whole? && !readable) ==> r.shared.memory == [] && r.shared.loadError)
  {
  }

  // ---------------------------------------------------------------- what is kept

  ghost predicate Holds(q: Queue, id: string) {
    exists e :: e in q && e.id == id && e.state == Pending
  }

  ghost predicate Settled(s: System, id: string) {
    id in s.accepted || id in s.abandoned
  }

  ghost predicate Safe(s: System) {
    && (s.alive ==> Publish.Inv(s.shared))
    && (forall t :: s.alive && HasJob(s, t) && s.jobs[t].Recording? && s.jobs[t].failure.None? ==> s.jobs[t].id in s.accepted)
    && (forall t :: s.alive && HasJob(s, t) && s.jobs[t].Adding? ==>
          Settled(s, s.jobs[t].id) || Holds(s.shared.memory, s.jobs[t].id))
    && (forall id :: id in s.acknowledged && !Settled(s, id) ==>
          && s.shared.file.Whole? && Holds(s.shared.file.content, id)
          && (s.alive && !s.shared.loadError ==> Holds(s.shared.memory, id)))
  }

  lemma EnqueuedHolds(q: Queue, entry: QueuedDelivery, id: string)
    requires entry.state == Pending
    requires Holds(q, id) || id == entry.id
    ensures Holds(Enqueued(q, entry), id)
  {
    EnqueueKeepsEveryPending(q, entry);
    KeepMembers(IsPending, q);
    KeepMembers(IsPending, Enqueued(q, entry));
    var kept := Keep(IsPending, q) + [entry];
    if id == entry.id {
      assert entry in kept;
    } else {
      var e :| e in q && e.id == id && e.state == Pending;
      assert e in kept;
    }
  }

  lemma SuccessHolds(q: Queue, done: string, id: string)
    requires Holds(q, id) && id != done
    ensures Holds(RecordSuccess(q, done), id)
  {
    var e :| e in q && e.id == id && e.state == Pending;
    var i :| 0 <= i < |q| && q[i] == e;
    assert RecordSuccess(q, done)[i] == e;
  }

  lemma FailureHolds(q: Queue, failed: string, error: string, now: int, id: string)
    requires Holds(q, id)
    requires id != failed || !GivesUp(q, failed, error)
    ensures Holds(RecordFailure(q, failed, error, now), id)
  {
    var e :| e in q && e.id == id && e.state == Pending;
    var i :| 0 <= i < |q| && q[i] == e;
    var r := RecordFailure(q, failed, error, now);
    assert |r| == |q|;
    if i == Find(q, failed) {
      assert r[i].id == id && r[i].state == Pending;
      assert r[i] in r;
    } else {
      assert r[i] == e;
    }
  }

  lemma PruneHolds(q: Queue, id: string)
    requires Holds(q, id)
    ensures Holds(Pruned(q), id)
  {
    KeepMembers(IsPending, q);
    var e :| e in q && e.id == id && e.state == Pending;
    assert e in Pruned(q);
  }

  /** Whatever an operation does to the list, an unsettled pending message stays pending. */
  ghost predicate Preserves(before: Queue, after: Queue, s: System, r: System) {
    forall id :: Holds(before, id) && !Settled(r, id) ==> Holds(after, id)
  }

  lemma ChangeSafe(s: System, r: System, t: nat, value: Queue)
    requires Safe(s) && s.alive && Enabled(s.shared, Change(t, value))
    requires r.alive && r.shared == Apply(s.shared, Change(t, value))
    requires r.acknowledged == s.acknowledged && s.accepted <= r.accepted && s.abandoned <= r.abandoned
    requires forall u :: u in r.jobs && u != t ==> u in s.jobs && r.jobs[u] == s.jobs[u]
    requires t in r.jobs
    requires r.jobs[t].Adding? ==> Holds(value, r.jobs[t].id)
    requires !r.jobs[t].Recording?
    requires Preserves(s.shared.memory, value, s, r)
    ensures Safe(r)
  {
    StepInv(s.shared, Change(t, value));
  }

  lemma RecordSafe(s: System, t: nat, now: int)
    requires Safe(s) && Possible(s, Record(t, now))
    ensures Safe(Do(s, Record(t, now)))
  {
    var r := Do(s, Record(t, now));
    var job := s.jobs[t];
    var q := s.shared.memory;
    assert Enabled(s.shared, Change(t, q));
    match job.failure {
      case None =>
        forall id | Holds(q, id) && !Settled(r, id) ensures Holds(RecordSuccess(q, job.id), id) {
          SuccessHolds(q, job.id, id);
        }
        ChangeSafe(s, r, t, RecordSuccess(q, job.id));
      case Some(error) =>
        forall id | Holds(q, id) && !Settled(r, id) ensures Holds(RecordFailure(q, job.id, error, now), id) {
          FailureHolds(q, job.id, error, now, id);
        }
        ChangeSafe(s, r, t, RecordFailure(q, job.id, error, now));
    }
  }

  lemma PushSafe(s: System, t: nat, entry: QueuedDelivery)
    requires Safe(s) && Possible(s, Push(t, entry))
    ensures Safe(Do(s, Push(t, entry)))
  {
    var r := Do(s, Push(t, entry));
    forall id | Holds(s.shared.memory, id) && !Settled(r, id) ensures Holds(Enqueued(s.shared.memory, entry), id) {
      EnqueuedHolds(s.shared.memory, entry, id);
    }
    EnqueuedHolds(s.shared.memory, entry, entry.id);
    ChangeSafe(s, r, t, Enqueued(s.shared.memory, entry));
  }

  lemma PruneSafe(s: System, t: nat)
    requires Safe(s) && Possible(s, Prune(t))
    ensures Safe(Do(s, Prune(t)))
  {
    var r := Do(s, Prune(t));
    assert Enabled(s.shared, Change(t, s.shared.memory));
    forall id | Holds(s.shared.memory, id) && !Settled(r, id) ensures Holds(Pruned(s.shared.memory), id) {
      PruneHolds(s.shared.memory, id);
    }
    ChangeSafe(s, r, t, Pruned(s.shared.memory));
  }

  lemma SaveSafe(s: System, step: Step<Queue>)
    requires Safe(s) && Possible(s, SaveStep(step))
    ensures Safe(Do(s, SaveStep(step)))
  {
    StepInv(s.shared, step);
    var r := Do(s, SaveStep(step));
    assert r.shared == Apply(s.shared, step);
    assert r.shared.memory == s.shared.memory;
    if step.Rename? {
      assert r.shared.file == Whole(s.shared.memory);
    } else {
      assert r.shared.file == s.shared.file;
      assert r.acknowledged == s.acknowledged;
    }
  }

  lemma EventSafe(s: System, e: Event)
    requires Safe(s) && Possible(s, e)
    ensures Safe(Do(s, e))
  {
    match e
    case Crash =>
    case Restart(readable) =>
      var r := Do(s, e);
      FreshInv(r.shared.memory, r.shared.loadError, s.shared.file, s.shared.temporary);
    case Push(t, entry) => PushSafe(s, t, entry);
    case StartPass(t, now) =>
    case EndPass(t) =>
    case Answer(t, failure) =>
    case Record(t, now) => RecordSafe(s, t, now);
    case Prune(t) => PruneSafe(s, t);
    case SaveStep(step) => SaveSafe(s, step);
  }

  // ---------------------------------------------------------------- whole histories

  /** A machine on which nothing has been queued yet; the file may be anything. */
  ghost predicate Initial(s: System) {
    && !s.alive && s.jobs == map[]
    && s.acknowledged == {} && s.accepted == {} && s.abandoned == {}
  }

  ghost predicate IsHistory(run: seq<System>) {
    && |run| > 0 && Initial(run[0])
    && forall i :: 0 <= i < |run| - 1 ==> Follows(run[i], run[i + 1])
  }

  ghost predicate Follows(s: System, r: System) {
    exists e :: Possible(s, e) && r == Do(s, e)
  }

  lemma {:induction false} HistorySafe(run: seq<System>, i: nat)
    requires IsHistory(run) && i < |run|
    ensures Safe(run[i])
  {
    if i > 0 {
      HistorySafe(run, i - 1);
      assert Follows(run[i - 1], run[i - 1 + 1]);
      var e :| Possible(run[i - 1], e) && run[i] == Do(run[i - 1], e);
      EventSafe(run[i - 1], e);
    }
  }

  lemma AcknowledgedGrows(s: System, e: Event)
    requires Possible(s, e)
    ensures s.acknowledged <= Do(s, e).acknowledged
  {
  }

  lemma {:induction false} AcknowledgedStays(run: seq<System>, i: nat, j: nat)
    requires IsHistory(run) && i <= j < |run|
    ensures run[i].acknowledged <= run[j].acknowledged
  {
    if i < j {
      AcknowledgedStays(run, i, j - 1);
      assert Follows(run[j - 1], run[j - 1 + 1]);
      var e :| Possible(run[j - 1], e) && run[j] == Do(run[j - 1], e);
      AcknowledgedGrows(run[j - 1], e);
    }
  }

  /**
   * At least once. Once `enqueue` has returned Ok for a message, then ever
   * after - whatever threads interleave, saves fail, crashes strike or loads go
   * wrong - either some attempt has already been accepted or has given the
   * message up, or the file still holds it as pending, and so does the memory
   * of every process that managed to read the file.
   */
  lemma AtLeastOnce(run: seq<System>, i: nat, j: nat, id: string)
    requires IsHistory(run) && i <= j < |run|
    requires id in run[i].acknowledged
    ensures
      || id in run[j].accepted
      || id in run[j].abandoned
      || (&& run[j].shared.file.Whole?
          && Holds(run[j].shared.file.content, id)
          && (run[j].alive && !run[j].shared.loadError ==> Holds(run[j].shared.memory, id)))
  {
    HistorySafe(run, j);
    AcknowledgedStays(run, i, j);
  }

  /** A crash followed by a restart that can read the file brings every unsettled acknowledged message back as pending. */
  lemma CrashLosesNoPending(run: seq<System>, i: nat, id: string)
    requires IsHistory(run) && i < |run| && run[i].alive
    requires id in run[i].acknowledged && !Settled(run[i], id)
    ensures
      var crashed := Do(run[i], Crash);
      var back := Do(crashed, Restart(true));
      back.alive && !back.shared.loadError && Holds(back.shared.memory, id)
  {
    HistorySafe(run, i);
  }

  // ---------------------------------------------------------------- giving up

  /** The step from `s` to `r` records a failure for `id` by which the queue gives the message up. */
  ghost predicate Abandons(s: System, r: System, id: string) {
    exists t, now {:trigger Record(t, now)} ::
      && Possible(s, Record(t, now)) && r == Do(s, Record(t, now))
      && s.jobs[t].id == id && s.jobs[t].failure.Some?
      && GivesUp(s.shared.memory, id, s.jobs[t].failure.value)
      && FailureState(s.shared.memory, id, s.jobs[t].failure.value, now) == Failed
  }

  ghost predicate AbandonedAt(run: seq<System>, k: nat, id: string) {
    k + 1 < |run| && Abandons(run[k], run[k + 1], id)
  }

  lemma AbandonedStep(s: System, e: Event, id: string)
    requires Possible(s, e) && id in Do(s, e).abandoned && id !in s.abandoned
    ensures Abandons(s, Do(s, e), id)
  {
    assert e == Record(e.t, e.now);
  }

  /**
   * No message counts as given up without a reason. At some step before, a
   * permanent failure or the last one allowed was recorded for an entry the
   * list held, and left that entry failed.
   */
  lemma {:induction false} GivenUpForAReason(run: seq<System>, i: nat, id: string)
    requires IsHistory(run) && i < |run| && id in run[i].abandoned
    ensures exists k: nat :: k < i && AbandonedAt(run, k, id)
  {
    if i > 0 {
      assert Follows(run[i - 1], run[i - 1 + 1]);
      var e :| Possible(run[i - 1], e) && run[i] == Do(run[i - 1], e);
      if id in run[i - 1].abandoned {
        GivenUpForAReason(run, i - 1, id);
      } else {
        AbandonedStep(run[i - 1], e, id);
        assert AbandonedAt(run, i - 1, id);
      }
    }
  }

  // ---------------------------------------------------------------- attempts

  /** Every pending entry may still be tried, so that its wait is one of the schedule's, unless it stands in `found` as it is. */
  ghost predicate AttemptsLeft(q: Queue, found: Queue) {
    forall e :: e in q && e.state == Pending ==> e.attempts < 5 == |BACKOFF_MS| || e in found
  }

  lemma PushKeepsAttemptsLeft(q: Queue, found: Queue, entry: QueuedDelivery)
    requires AttemptsLeft(q, found) && entry.state == Pending && entry.attempts == 0
    ensures AttemptsLeft(Enqueued(q, entry), found)
  {
    EnqueueKeepsEveryPending(q, entry);
    KeepMembers(IsPending, q);
    KeepMembers(IsPending, Enqueued(q, entry));
    forall e | e in Enqueued(q, entry) && e.state == Pending ensures e.attempts < MAX_ATTEMPTS || e in found {
      assert e in Keep(IsPending, q) + [entry];
    }
  }

  lemma RecordsKeepAttemptsLeft(q: Queue, found: Queue, id: string, error: string, now: int)
    requires AttemptsLeft(q, found)
    ensures AttemptsLeft(RecordSuccess(q, id), found) && AttemptsLeft(RecordFailure(q, id, error, now), found)
  {
    var at := Find(q, id);
    if at < |q| {
      var tried := AfterFailure(q[at], error, now);
      forall e | e in q[at := tried] && e.state == Pending ensures e.attempts < MAX_ATTEMPTS || e in found {
        assert e in q || e == tried;
      }
    }
  }

  ghost predicate Retriable(s: System, found: Queue) {
    && (s.alive ==> AttemptsLeft(s.shared.memory, found))
    && (s.shared.file.Whole? ==> AttemptsLeft(s.shared.file.content, found))
  }

  lemma RecordKeepsRetriable(s: System, found: Queue, t: nat, now: int)
    requires Retriable(s, found) && Possible(s, Record(t, now))
    ensures Retriable(Do(s, Record(t, now)), found)
  {
    var job := s.jobs[t];
    RecordsKeepAttemptsLeft(s.shared.memory, found, job.id, if job.failure.Some? then job.failure.value else "", now);
  }

  lemma SaveKeepsRetriable(s: System, found: Queue, step: Step<Queue>)
    requires Safe(s) && Retriable(s, found) && Possible(s, SaveStep(step))
    ensures Retriable(Do(s, SaveStep(step)), found)
  {
    StepInv(s.shared, step);
    if step.Rename? {
      assert Do(s, SaveStep(step)).shared.file == Whole(s.shared.memory);
    }
  }

  lemma EventKeepsRetriable(s: System, found: Queue, e: Event)
    requires Safe(s) && Retriable(s, found) && Possible(s, e)
    ensures Retriable(Do(s, e), found)
  {
    match e
    case Push(t, entry) => PushKeepsAttemptsLeft(s.shared.memory, found, entry);
    case Prune(t) => KeepMembers(IsPending, s.shared.memory);
    case Record(t, now) => RecordKeepsRetriable(s, found, t, now);
    case SaveStep(step) => SaveKeepsRetriable(s, found, step);
    case _ =>
  }

  /** What the machine's file held before anything ran. */
  ghost function Found(run: seq<System>): Queue
    requires |run| > 0
  {
    if run[0].shared.file.Whole? then run[0].shared.file.content else []
  }

  /**
   * Under any interleaving of threads, failing saves, crashes and reloads, a
   * pending message in memory or in the file has had fewer than five
   * failures, so that its wait is one of the schedule's and never the fallback;
   * the only exceptions are entries the very first file held, still exactly as
   * it held them.
   */
  lemma {:induction false} PendingIsAlwaysRetriable(run: seq<System>, i: nat)
    requires IsHistory(run) && i < |run|
    ensures Retriable(run[i], Found(run))
  {
    if i > 0 {
      PendingIsAlwaysRetriable(run, i - 1);
      HistorySafe(run, i - 1);
      assert Follows(run[i - 1], run[i - 1 + 1]);
      var e :| Possible(run[i - 1], e) && run[i] == Do(run[i - 1], e);
      EventKeepsRetriable(run[i - 1], Found(run), e);
    }
  }

  // ---------------------------------------------------------------- overlapping passes

  /** Recording for an entry that stands alone in the list. */
  lemma RecordsOnOne(e: QueuedDelivery, error: string, now: int)
    ensures RecordSuccess([e], e.id) == [Delivered(e)]
    ensures RecordFailure([e], e.id, error, now) == [AfterFailure(e, error, now)]
  {
    assert [e][0].id == e.id;
    assert [e][0 := Delivered(e)] == [Delivered(e)];
    assert [e][0 := AfterFailure(e, error, now)] == [AfterFailure(e, error, now)];
  }

  lemma DueOfOne(e: QueuedDelivery, now: int)
    requires IsDue(e, now)
    ensures DueOf([e], now) == [e]
  {
    assert [e][1..] == [];
    assert Keep(IsPending, [e]) == [e];
    assert PendingOf([e]) == SortBy(EnqueueTime(), [e]) == [e];
    assert Keep(DueAt(now), [e]) == [e];
  }

  lemma HistoryGrows(run: seq<System>, e: Event)
    requires IsHistory(run) && Possible(run[|run| - 1], e)
    ensures IsHistory(run + [Do(run[|run| - 1], e)])
  {
    assert Follows(run[|run| - 1], Do(run[|run| - 1], e));
  }

  /** A message is queued and two passes start while it is due. */
  lemma TwoPassesStart(e: QueuedDelivery, now: int) returns (run: seq<System>)
    requires e.state == Pending && e.attempts == 0 && IsDue(e, now)
    ensures IsHistory(run)
    ensures
      var s := run[|run| - 1];
      && s.alive && s.shared.memory == [e] && s.shared.phases == map[0 := Waiting]
      && s.jobs == map[0 := Adding(e.id), 1 := Draining([e]), 2 := Draining([e])]
  {
    var s := System(false, Fresh([], false, Missing, Missing), map[], {}, {}, {});
    run := [s];
    HistoryGrows(run, Restart(true));
    s := Do(s, Restart(true));
    run := run + [s];
    assert [] + [e] == [e];
    HistoryGrows(run, Push(0, e));
    s := Do(s, Push(0, e));
    run := run + [s];
    DueOfOne(e, now);
    HistoryGrows(run, StartPass(1, now));
    s := Do(s, StartPass(1, now));
    run := run + [s];
    HistoryGrows(run, StartPass(2, now));
    run := run + [Do(s, StartPass(2, now))];
  }

  /** The platform takes the message from the first pass and refuses it for good from the second. */
  lemma BothAreAnswered(run0: seq<System>, e: QueuedDelivery) returns (run: seq<System>)
    requires IsHistory(run0)
    requires
      var s := run0[|run0| - 1];
      && s.alive && s.shared.memory == [e] && s.shared.phases == map[0 := Waiting]
      && s.jobs == map[0 := Adding(e.id), 1 := Draining([e]), 2 := Draining([e])]
    ensures IsHistory(run)
    ensures
      var s := run[|run| - 1];
      && s.alive && s.shared.memory == [e] && s.shared.phases == map[0 := Waiting]
      && 1 in s.jobs && s.jobs[1] == Recording([], e.id, None)
      && 2 in s.jobs && s.jobs[2] == Recording([], e.id, Some("forbidden"))
      && e.id in s.accepted
  {
    var s := run0[|run0| - 1];
    HistoryGrows(run0, Answer(1, None));
    s := Do(s, Answer(1, None));
    run := run0 + [s];
    HistoryGrows(run, Answer(2, Some("forbidden")));
    run := run + [Do(s, Answer(2, Some("forbidden")))];
  }

  /**
   * Two passes that overlap on one message. Both start while it is due; the
   * platform accepts it from the first and refuses it for good from the second;
   * the success and the failure are recorded in that order. The message was
   * delivered and ends as failed.
   */
  lemma OverlappingPassesUndoASend(e: QueuedDelivery, now: int) returns (run: seq<System>)
    requires e.state == Pending && e.attempts == 0 && IsDue(e, now)
    ensures IsHistory(run)
    ensures
      var end := run[|run| - 1];
      && e.id in end.accepted
      && end.shared.memory == [AfterFailure(Delivered(e), "forbidden", now)]
      && end.shared.memory[0].state == Failed
  {
    run := TwoPassesStart(e, now);
    run := BothAreAnswered(run, e);
    run := BothAreRecorded(run, e, now);
    assert ErrorText.Lowered("forbidden") == "forbidden";
    ErrorText.PatternIsPermanent("forbidden", 8);
  }

  lemma BothAreRecorded(run0: seq<System>, e: QueuedDelivery, now: int) returns (run: seq<System>)
    requires IsHistory(run0)
    requires
      var s := run0[|run0| - 1];
      && s.alive && s.shared.memory == [e] && s.shared.phases == map[0 := Waiting]
      && 1 in s.jobs && s.jobs[1] == Recording([], e.id, None)
      && 2 in s.jobs && s.jobs[2] == Recording([], e.id, Some("forbidden"))
    ensures IsHistory(run)
    ensures run0[|run0| - 1].accepted == run[|run| - 1].accepted
    ensures run[|run| - 1].shared.memory == [AfterFailure(Delivered(e), "forbidden", now)]
  {
    var s := run0[|run0| - 1];
    RecordsOnOne(e, "forbidden", now);
    HistoryGrows(run0, Record(1, now));
    s := Do(s, Record(1, now));
    run := run0 + [s];
    RecordsOnOne(Delivered(e), "forbidden", now);
    HistoryGrows(run, Record(2, now));
    run := run + [Do(s, Record(2, now))];
  }
}
