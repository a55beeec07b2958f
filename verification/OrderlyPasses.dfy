/**
 * What one drain pass at a time buys (channels/src/delivery.rs with
 * channels/src/outbox.rs).
 *
 * The machine is that of `DeliveryProtocol`: threads enqueue, prune, save and
 * crash in any order. Here a pass only starts while no other is under way, and
 * a message is queued under an id the list does not hold.
 */
module OrderlyPasses {
  import opened Wrappers
  import opened Sequences
  import opened Delivery
  import opened Publish
  import opened DeliveryProtocol
  import Outbox

  ghost predicate InPass(s: System, t: nat) {
    HasJob(s, t) && (s.jobs[t].Draining? || s.jobs[t].Recording?)
  }

  ghost predicate Unused(q: Queue, id: string) {
    forall x :: x in q ==> x.id != id
  }

  ghost predicate Polite(s: System, e: Event) {
    match e
    case Push(t, entry) => Unused(s.shared.memory, entry.id)
    case StartPass(t, now) => forall u :: !InPass(s, u)
    case _ => true
  }

  ghost predicate OrderlyStep(s: System, r: System) {
    exists e :: Possible(s, e) && Polite(s, e) && r == Do(s, e)
  }

  /** A history of polite steps on a machine whose first file, if it is one, repeats no id. */
  ghost predicate OrderlyHistory(run: seq<System>) {
    && |run| > 0 && Initial(run[0])
    && (run[0].shared.file.Whole? ==> Outbox.UniqueIds(run[0].shared.file.content))
    && forall i :: 0 <= i < |run| - 1 ==> OrderlyStep(run[i], run[i + 1])
  }

  lemma OrderlyIsHistory(run: seq<System>)
    requires OrderlyHistory(run)
    ensures IsHistory(run)
  {
    forall i | 0 <= i < |run| - 1 ensures Follows(run[i], run[i + 1]) {
      assert OrderlyStep(run[i], run[i + 1]);
    }
  }

  // ---------------------------------------------------------------- the invariant

  /** All that a pass has yet to try waits in the list. */
  ghost predicate TodoWaits(q: Queue, todo: Queue) {
    Outbox.UniqueIds(todo) && forall x :: x in todo ==> Holds(q, x.id)
  }

  ghost predicate PassWaits(q: Queue, job: Job) {
    match job
    case Draining(todo) => TodoWaits(q, todo)
    case Recording(todo, id, _) => TodoWaits(q, todo) && Holds(q, id) && Unused(todo, id)
    case _ => true
  }

  ghost predicate OnePass(s: System) {
    forall t, u :: InPass(s, t) && InPass(s, u) ==> t == u
  }

  ghost predicate Orderly(s: System) {
    && Safe(s)
    && (s.shared.file.Whole? ==> Outbox.UniqueIds(s.shared.file.content))
    && (s.alive ==>
          && Outbox.UniqueIds(s.shared.memory)
          && OnePass(s)
          && forall t :: HasJob(s, t) ==> PassWaits(s.shared.memory, s.jobs[t]))
  }

  // ---------------------------------------------------------------- what the operations keep

  /** An operation that keeps ids apart and keeps every waiting message but `except` waiting. */
  ghost predicate KeepsWaiting(q: Queue, r: Queue, except: string) {
    && Outbox.UniqueIds(r)
    && forall id :: id != except && Holds(q, id) ==> Holds(r, id)
  }

  lemma TodoStillWaits(q: Queue, r: Queue, except: string, todo: Queue)
    requires KeepsWaiting(q, r, except) && TodoWaits(q, todo) && Unused(todo, except)
    ensures TodoWaits(r, todo)
  {
  }

  lemma {:induction false} DroppedAreMembers(q: Queue, n: nat)
    ensures forall x :: x in DropFinished(q, n) ==> x in q
  {
    if q != [] {
      DroppedAreMembers(q[1..], if n > 0 && IsFinished(q[0]) then n - 1 else n);
    }
  }

  lemma {:induction false} DroppedUniqueIds(q: Queue, n: nat)
    requires Outbox.UniqueIds(q)
    ensures Outbox.UniqueIds(DropFinished(q, n))
  {
    if q != [] {
      var left := if n > 0 && IsFinished(q[0]) then n - 1 else n;
      DroppedUniqueIds(q[1..], left);
      DroppedAreMembers(q[1..], left);
      var rest := DropFinished(q[1..], left);
      assert forall i :: 0 <= i < |rest| ==> rest[i] in rest;
    }
  }

  lemma PushKeepsWaiting(q: Queue, entry: QueuedDelivery)
    requires Outbox.UniqueIds(q) && Unused(q, entry.id) && entry.state == Pending
    ensures Outbox.UniqueIds(Enqueued(q, entry))
    ensures forall x :: x in Enqueued(q, entry) ==> x in q || x == entry
    ensures forall id :: Holds(q, id) ==> Holds(Enqueued(q, entry), id)
  {
    var all := q + [entry];
    assert forall i :: 0 <= i < |q| ==> q[i] in q;
    assert Outbox.UniqueIds(all);
    if |all| > MAX_ENTRIES {
      DroppedUniqueIds(all, |all| - MAX_ENTRIES);
      DroppedAreMembers(all, |all| - MAX_ENTRIES);
    }
    forall id | Holds(q, id) ensures Holds(Enqueued(q, entry), id) {
      EnqueuedHolds(q, entry, id);
    }
  }

  lemma PruneKeepsWaiting(q: Queue)
    requires Outbox.UniqueIds(q)
    ensures Outbox.UniqueIds(Pruned(q))
    ensures forall x :: x in Pruned(q) ==> x in q
    ensures forall id :: Holds(q, id) ==> Holds(Pruned(q), id)
  {
    Outbox.KeepUniqueIds(IsPending, q);
    KeepMembers(IsPending, q);
    forall id | Holds(q, id) ensures Holds(Pruned(q), id) {
      PruneHolds(q, id);
    }
  }

  /** The entry an answer is recorded for is the one that waits. */
  lemma RecordsTheWaiting(q: Queue, id: string)
    requires Outbox.UniqueIds(q) && Holds(q, id)
    ensures Find(q, id) < |q| && q[Find(q, id)].state == Pending && q[Find(q, id)].id == id
  {
    var e :| e in q && e.id == id && e.state == Pending;
    var i :| 0 <= i < |q| && q[i] == e;
  }

  /** Replacing one entry by another with its id. */
  lemma UpdateKeepsWaiting(q: Queue, at: nat, x: QueuedDelivery)
    requires Outbox.UniqueIds(q) && at < |q| && x.id == q[at].id
    ensures KeepsWaiting(q, q[at := x], x.id)
    ensures forall y :: y in q && y != q[at] ==> y in q[at := x]
  {
    var r := q[at := x];
    forall y | y in q && y != q[at] ensures y in r {
      var i :| 0 <= i < |q| && q[i] == y;
      assert r[i] == y;
    }
    forall id | id != x.id && Holds(q, id) ensures Holds(r, id) {
      var e :| e in q && e.id == id && e.state == Pending;
      assert e in r;
    }
  }

  /** What recording the platform's answer makes of the list. */
  ghost function Recorded(q: Queue, id: string, failure: Option<string>, now: int): Queue {
    match failure
    case None => RecordSuccess(q, id)
    case Some(error) => RecordFailure(q, id, error, now)
  }

  lemma RecordKeepsWaiting(q: Queue, id: string, failure: Option<string>, now: int)
    requires Outbox.UniqueIds(q) && Holds(q, id)
    ensures KeepsWaiting(q, Recorded(q, id, failure, now), id)
    ensures forall y :: y in q && y.state != Pending ==> y in Recorded(q, id, failure, now)
  {
    RecordsTheWaiting(q, id);
    var at := Find(q, id);
    UpdateKeepsWaiting(q, at, if failure.None? then Delivered(q[at]) else AfterFailure(q[at], failure.value, now));
  }

  // ---------------------------------------------------------------- every step keeps it

  lemma PushOrderly(s: System, t: nat, entry: QueuedDelivery)
    requires Orderly(s) && Possible(s, Push(t, entry)) && Polite(s, Push(t, entry))
    ensures Orderly(Do(s, Push(t, entry)))
  {
    var r, q := Do(s, Push(t, entry)), s.shared.memory;
    PushSafe(s, t, entry);
    PushKeepsWaiting(q, entry);
    forall u | HasJob(r, u) ensures PassWaits(r.shared.memory, r.jobs[u]) {
      if u != t {
        JobStillWaits(q, r.shared.memory, s.jobs[u]);
      }
    }
    assert forall u :: InPass(r, u) ==> InPass(s, u);
  }

  lemma JobStillWaits(q: Queue, r: Queue, job: Job)
    requires PassWaits(q, job)
    requires forall id :: Holds(q, id) ==> Holds(r, id)
    ensures PassWaits(r, job)
  {
  }

  lemma PruneOrderly(s: System, t: nat)
    requires Orderly(s) && Possible(s, Prune(t))
    ensures Orderly(Do(s, Prune(t)))
  {
    var r, q := Do(s, Prune(t)), s.shared.memory;
    PruneSafe(s, t);
    PruneKeepsWaiting(q);
    forall u | HasJob(r, u) ensures PassWaits(r.shared.memory, r.jobs[u]) {
      if u != t {
        JobStillWaits(q, r.shared.memory, s.jobs[u]);
      }
    }
    assert forall u :: InPass(r, u) ==> InPass(s, u);
  }

  lemma RecordOrderly(s: System, t: nat, now: int)
    requires Orderly(s) && Possible(s, Record(t, now))
    ensures Orderly(Do(s, Record(t, now)))
  {
    var r, q, job := Do(s, Record(t, now)), s.shared.memory, s.jobs[t];
    RecordSafe(s, t, now);
    RecordKeepsWaiting(q, job.id, job.failure, now);
    assert r.shared.memory == Recorded(q, job.id, job.failure, now);
    TodoStillWaits(q, r.shared.memory, job.id, job.todo);
    OnlyPassGoesOn(s, r, t);
  }

  /** The pass under way changed the list and goes on; the other threads' jobs are as they were. */
  lemma OnlyPassGoesOn(s: System, r: System, t: nat)
    requires OnePass(s) && InPass(s, t) && Safe(r) && r.alive && r.shared.file == s.shared.file
    requires s.shared.file.Whole? ==> Outbox.UniqueIds(s.shared.file.content)
    requires Outbox.UniqueIds(r.shared.memory)
    requires forall u :: u != t && HasJob(r, u) ==> HasJob(s, u) && r.jobs[u] == s.jobs[u]
    requires HasJob(r, t) ==> PassWaits(r.shared.memory, r.jobs[t])
    ensures Orderly(r)
  {
    OtherJobsDoNotPass(s, t);
    assert forall u :: InPass(r, u) ==> InPass(s, u);
  }

  lemma OtherJobsDoNotPass(s: System, t: nat)
    requires OnePass(s) && InPass(s, t)
    ensures forall u :: HasJob(s, u) && u != t ==> s.jobs[u].Adding? || s.jobs[u].Pruning?
  {
    forall u | HasJob(s, u) && u != t ensures s.jobs[u].Adding? || s.jobs[u].Pruning? {
      assert !InPass(s, u);
    }
  }

  /** A pass starts with messages that wait. */
  lemma DueWaits(q: Queue, now: int)
    requires Outbox.UniqueIds(q)
    ensures TodoWaits(q, DueOf(q, now))
  {
    Outbox.DueUniqueIds(q, now);
    DueIsExact(q, now);
    forall x | x in DueOf(q, now) ensures Holds(q, x.id) {
      assert x in q && x.state == Pending;
    }
  }

  lemma StartOrderly(s: System, t: nat, now: int)
    requires Orderly(s) && Possible(s, StartPass(t, now)) && Polite(s, StartPass(t, now))
    ensures Orderly(Do(s, StartPass(t, now)))
  {
    var r, q := Do(s, StartPass(t, now)), s.shared.memory;
    EventSafe(s, StartPass(t, now));
    DueWaits(q, now);
    assert forall u :: u != t && HasJob(r, u) ==> HasJob(s, u) && r.jobs[u] == s.jobs[u];
    assert forall u :: u != t && InPass(r, u) ==> InPass(s, u);
  }

  lemma AnswerOrderly(s: System, t: nat, failure: Option<string>)
    requires Orderly(s) && Possible(s, Answer(t, failure))
    ensures Orderly(Do(s, Answer(t, failure)))
  {
    var r, todo := Do(s, Answer(t, failure)), s.jobs[t].todo;
    EventSafe(s, Answer(t, failure));
    assert todo[0] in todo;
    assert forall x :: x in todo[1..] ==> x in todo && x.id != todo[0].id;
    assert forall u :: InPass(r, u) ==> InPass(s, u);
  }

  lemma SaveOrderly(s: System, step: Step<Queue>)
    requires Orderly(s) && Possible(s, SaveStep(step))
    ensures Orderly(Do(s, SaveStep(step)))
  {
    var r := Do(s, SaveStep(step));
    SaveSafe(s, step);
    StepInv(s.shared, step);
    assert r.shared.memory == s.shared.memory;
    if step.Rename? {
      assert r.shared.file == Whole(s.shared.memory);
    } else {
      assert r.shared.file == s.shared.file;
    }
    assert forall u :: HasJob(r, u) ==> HasJob(s, u) && r.jobs[u] == s.jobs[u];
    assert forall u :: InPass(r, u) ==> InPass(s, u);
  }

  lemma EndOrderly(s: System, t: nat)
    requires Orderly(s) && Possible(s, EndPass(t))
    ensures Orderly(Do(s, EndPass(t)))
  {
    var r := Do(s, EndPass(t));
    EventSafe(s, EndPass(t));
    assert forall u :: HasJob(r, u) ==> HasJob(s, u) && r.jobs[u] == s.jobs[u];
    assert forall u :: InPass(r, u) ==> InPass(s, u);
  }

  lemma StepOrderly(s: System, e: Event)
    requires Orderly(s) && Possible(s, e) && Polite(s, e)
    ensures Orderly(Do(s, e))
  {
    match e
    case Crash => EventSafe(s, e);
    case Restart(readable) => EventSafe(s, e);
    case Push(t, entry) => PushOrderly(s, t, entry);
    case StartPass(t, now) => StartOrderly(s, t, now);
    case EndPass(t) => EndOrderly(s, t);
    case Answer(t, failure) => AnswerOrderly(s, t, failure);
    case Record(t, now) => RecordOrderly(s, t, now);
    case Prune(t) => PruneOrderly(s, t);
    case SaveStep(step) => SaveOrderly(s, step);
  }

  lemma {:induction false} AlwaysOrderly(run: seq<System>, i: nat)
    requires OrderlyHistory(run) && i < |run|
    ensures Orderly(run[i])
  {
    OrderlyIsHistory(run);
    HistorySafe(run, i);
    if i > 0 {
      AlwaysOrderly(run, i - 1);
      assert OrderlyStep(run[i - 1], run[i - 1 + 1]);
      var e :| Possible(run[i - 1], e) && Polite(run[i - 1], e) && run[i] == Do(run[i - 1], e);
      StepOrderly(run[i - 1], e);
    }
  }

  // ---------------------------------------------------------------- theorems

  /** The platform's answer is only ever recorded for a message that waits: late failures take overlapping passes. */
  lemma AnswersMeetWaitingMessages(run: seq<System>, i: nat, t: nat)
    requires OrderlyHistory(run) && i < |run|
    requires run[i].alive && HasJob(run[i], t) && run[i].jobs[t].Recording?
    ensures
      var q, id := run[i].shared.memory, run[i].jobs[t].id;
      Find(q, id) < |q| && q[Find(q, id)].state == Pending
  {
    AlwaysOrderly(run, i);
    assert PassWaits(run[i].shared.memory, run[i].jobs[t]);
    RecordsTheWaiting(run[i].shared.memory, run[i].jobs[t].id);
  }

  /** The list was pruned, or a message was queued and room made for it, and `x` went. */
  ghost predicate Drops(q: Queue, r: Queue, x: QueuedDelivery) {
    && Unused(r, x.id)
    && (r == Pruned(q) || exists entry :: r == Enqueued(q, entry))
  }

  lemma SubsetKeepsOrDrops(q: Queue, r: Queue, x: QueuedDelivery)
    requires Outbox.UniqueIds(q) && x in q && forall y :: y in r ==> y in q || y.id != x.id
    ensures x in r || Unused(r, x.id)
  {
    if x !in r {
      forall y | y in r ensures y.id != x.id {
        if y in q {
          var i :| 0 <= i < |q| && q[i] == x;
          var j :| 0 <= j < |q| && q[j] == y;
          assert i != j;
          assert i < j || j < i;
        }
      }
    }
  }

  lemma PushKeepsOrDrops(q: Queue, entry: QueuedDelivery, x: QueuedDelivery)
    requires Outbox.UniqueIds(q) && Unused(q, entry.id) && entry.state == Pending && x in q
    ensures x in Enqueued(q, entry) || Drops(q, Enqueued(q, entry), x)
  {
    PushKeepsWaiting(q, entry);
    SubsetKeepsOrDrops(q, Enqueued(q, entry), x);
  }

  lemma PruneKeepsOrDrops(q: Queue, x: QueuedDelivery)
    requires Outbox.UniqueIds(q) && x in q
    ensures x in Pruned(q) || Drops(q, Pruned(q), x)
  {
    PruneKeepsWaiting(q);
    SubsetKeepsOrDrops(q, Pruned(q), x);
  }

  lemma RecordKeepsFinished(s: System, t: nat, now: int, x: QueuedDelivery)
    requires Orderly(s) && Possible(s, Record(t, now)) && x in s.shared.memory && x.state != Pending
    ensures x in Do(s, Record(t, now)).shared.memory
  {
    assert PassWaits(s.shared.memory, s.jobs[t]);
    RecordKeepsWaiting(s.shared.memory, s.jobs[t].id, s.jobs[t].failure, now);
  }

  lemma SaveKeepsMemory(s: System, step: Step<Queue>)
    requires Possible(s, SaveStep(step))
    ensures Do(s, SaveStep(step)).shared.memory == s.shared.memory
  {
  }

  lemma StepKeepsFinished(s: System, e: Event, x: QueuedDelivery)
    requires Orderly(s) && Possible(s, e) && Polite(s, e) && s.alive && !e.Crash?
    requires x in s.shared.memory && x.state != Pending
    ensures x in Do(s, e).shared.memory || Drops(s.shared.memory, Do(s, e).shared.memory, x)
  {
    var q, r := s.shared.memory, Do(s, e).shared.memory;
    match e
    case Push(t, entry) => PushKeepsOrDrops(q, entry, x);
    case Prune(t) => PruneKeepsOrDrops(q, x);
    case Record(t, now) => RecordKeepsFinished(s, t, now, x);
    case SaveStep(step) => SaveKeepsMemory(s, step);
    case _ =>
  }

  ghost predicate DroppedAt(run: seq<System>, k: nat, x: QueuedDelivery) {
    k + 1 < |run| && x in run[k].shared.memory && Drops(run[k].shared.memory, run[k + 1].shared.memory, x)
  }

  ghost predicate DroppedBetween(run: seq<System>, i: nat, j: nat, x: QueuedDelivery) {
    exists k: nat :: i <= k < j && DroppedAt(run, k, x)
  }

  lemma OneStepOn(run: seq<System>, k: nat, x: QueuedDelivery)
    requires OrderlyHistory(run) && k + 1 < |run| && run[k].alive && run[k + 1].alive
    requires x in run[k].shared.memory && x.state != Pending
    ensures x in run[k + 1].shared.memory || DroppedAt(run, k, x)
  {
    AlwaysOrderly(run, k);
    assert OrderlyStep(run[k], run[k + 1]);
    var e :| Possible(run[k], e) && Polite(run[k], e) && run[k + 1] == Do(run[k], e);
    StepKeepsFinished(run[k], e, x);
  }

  ghost predicate StaysOrGoes(run: seq<System>, k: nat, x: QueuedDelivery) {
    k + 1 < |run| && (x in run[k].shared.memory ==> x in run[k + 1].shared.memory || DroppedAt(run, k, x))
  }

  lemma {:induction false} StaysUntilDropped(run: seq<System>, i: nat, j: nat, x: QueuedDelivery)
    requires i <= j < |run| && x in run[i].shared.memory
    requires forall k: nat :: i <= k < j ==> StaysOrGoes(run, k, x)
    ensures x in run[j].shared.memory || DroppedBetween(run, i, j, x)
  {
    if i < j {
      StaysUntilDropped(run, i, j - 1, x);
      assert StaysOrGoes(run, j - 1, x);
    }
  }

  /**
   * A finished message stays exactly as it is. With one pass at a time and fresh
   * ids, while the process lives, whatever is queued, drained, pruned, saved or
   * fails to be saved, an entry that is sent or failed remains in the list
   * unchanged until the step that evicts or prunes it.
   */
  lemma FinishedStays(run: seq<System>, i: nat, j: nat, x: QueuedDelivery)
    requires OrderlyHistory(run) && i <= j < |run|
    requires forall k :: i <= k <= j ==> run[k].alive
    requires x in run[i].shared.memory && x.state != Pending
    ensures x in run[j].shared.memory || DroppedBetween(run, i, j, x)
  {
    forall k: nat | i <= k < j ensures StaysOrGoes(run, k, x) {
      if x in run[k].shared.memory {
        OneStepOn(run, k, x);
      }
    }
    StaysUntilDropped(run, i, j, x);
  }
}
