/**
 * The durable outbound queue (channels/src/delivery.rs).
 *
 * Every operation is first a function on the list of entries, then a method of
 * the class that owns the list and the file. The lemmas are about the functions.
 */
module Delivery {
  import opened Wrappers
  import opened Sequences
  import opened ErrorText

  const MAX_ATTEMPTS: nat := 5
  const MAX_ENTRIES: nat := 2000
  const MAX_I64: int := 0x7FFF_FFFF_FFFF_FFFF

  datatype DeliveryState = Pending | Sent | Failed

  datatype ChatKind = Direct | Group | Broadcast

  datatype ConversationRef = ConversationRef(id: string, threadId: Option<string>, kind: ChatKind)

  datatype QueuedDelivery = QueuedDelivery(
    id: string,
    channel: string,
    conversation: ConversationRef,
    text: string,
    attempts: nat,
    state: DeliveryState,
    lastError: Option<string>,
    lastAttempt: Option<int>,
    enqueuedAt: int)

  type Queue = seq<QueuedDelivery>

  // ---------------------------------------------------------------- due entries

  const BACKOFF_MS: seq<nat> := [0, 5_000, 25_000, 120_000, 600_000]

  /** How long, in milliseconds, a message waits after its first `attempts` attempts. */
  function BackoffMs(attempts: nat): nat {
    if attempts < |BACKOFF_MS| then BACKOFF_MS[attempts] else 600_000
  }

  function SaturatingAdd(a: int, b: nat): int {
    if a + b > MAX_I64 then MAX_I64 else a + b
  }

  function DueTime(e: QueuedDelivery): int {
    SaturatingAdd(if e.lastAttempt.Some? then e.lastAttempt.value else e.enqueuedAt, BackoffMs(e.attempts))
  }

  predicate IsDue(e: QueuedDelivery, now: int) {
    e.state == Pending && now >= DueTime(e)
  }

  predicate IsPending(e: QueuedDelivery) {
    e.state == Pending
  }

  predicate IsFinished(e: QueuedDelivery) {
    e.state != Pending
  }

  function DueAt(now: int): QueuedDelivery -> bool {
    e => IsDue(e, now)
  }

  function EnqueueTime(): QueuedDelivery -> int {
    (e: QueuedDelivery) => e.enqueuedAt
  }

  function PendingOf(q: Queue): Queue {
    SortBy(EnqueueTime(), Keep(IsPending, q))
  }

  function DueOf(q: Queue, now: int): Queue {
    Keep(DueAt(now), PendingOf(q))
  }

  /**
   * What `due` returns: exactly the due entries of the queue, each as often as
   * the queue holds it, oldest first, and entries of one instant in queue order.
   */
  lemma DueIsExact(q: Queue, now: int)
    ensures multiset(DueOf(q, now)) == multiset(Keep(DueAt(now), q))
    ensures OrderedBy(EnqueueTime(), DueOf(q, now))
    ensures forall time :: Keep(AtKey(EnqueueTime(), time), DueOf(q, now)) == Keep(AtKey(EnqueueTime(), time), Keep(DueAt(now), q))
    ensures forall e :: e in DueOf(q, now) <==> e in q && IsDue(e, now)
  {
    var key := EnqueueTime();
    KeepSort(DueAt(now), key, Keep(IsPending, q));
    KeepTwice(DueAt(now), IsPending, q);
    var due := Keep(DueAt(now), q);
    assert DueOf(q, now) == SortBy(key, due);
    SortIsOrdered(key, due);
    forall time ensures Keep(AtKey(key, time), DueOf(q, now)) == Keep(AtKey(key, time), due) {
      SortIsStable(key, due, time);
    }
    KeepMembers(DueAt(now), q);
    assert forall e :: e in DueOf(q, now) <==> e in multiset(DueOf(q, now));
    assert forall e :: e in due <==> e in multiset(due);
  }

  /** The pending entries, each as often as the queue holds it, and no other. */
  lemma PendingIsExact(q: Queue, e: QueuedDelivery)
    ensures multiset(PendingOf(q))[e] == if e.state == Pending then multiset(q)[e] else 0
  {
    SortIsOrdered(EnqueueTime(), Keep(IsPending, q));
    if e.state == Pending {
      KeepCount(IsPending, q, e);
    } else {
      KeepMembers(IsPending, q);
      assert e !in Keep(IsPending, q);
    }
  }

  /** Both listings go by the time of queueing, the oldest first. */
  lemma OldestFirst(q: Queue, now: int)
    ensures forall i, j :: 0 <= i < j < |PendingOf(q)| ==> PendingOf(q)[i].enqueuedAt <= PendingOf(q)[j].enqueuedAt
    ensures forall i, j :: 0 <= i < j < |DueOf(q, now)| ==> DueOf(q, now)[i].enqueuedAt <= DueOf(q, now)[j].enqueuedAt
  {
    var key := EnqueueTime();
    SortIsOrdered(key, Keep(IsPending, q));
    DueIsExact(q, now);
    forall i, j | 0 <= i < j < |PendingOf(q)| ensures PendingOf(q)[i].enqueuedAt <= PendingOf(q)[j].enqueuedAt {
      assert key(PendingOf(q)[i]) <= key(PendingOf(q)[j]);
    }
    forall i, j | 0 <= i < j < |DueOf(q, now)| ensures DueOf(q, now)[i].enqueuedAt <= DueOf(q, now)[j].enqueuedAt {
      assert key(DueOf(q, now)[i]) <= key(DueOf(q, now)[j]);
    }
  }

  /** Entries queued at one instant keep their order. */
  lemma OneInstantKeepsOrder(q: Queue, now: int, time: int)
    ensures
      var atThatTime := (e: QueuedDelivery) => e.enqueuedAt == time;
      var due := (e: QueuedDelivery) => IsDue(e, now);
      Keep(atThatTime, DueOf(q, now)) == Keep(atThatTime, Keep(due, q))
  {
    var atThatTime := (e: QueuedDelivery) => e.enqueuedAt == time;
    var due := (e: QueuedDelivery) => IsDue(e, now);
    DueIsExact(q, now);
    KeepSame(due, DueAt(now), q);
    KeepSame(atThatTime, AtKey(EnqueueTime(), time), DueOf(q, now));
    KeepSame(atThatTime, AtKey(EnqueueTime(), time), Keep(DueAt(now), q));
  }

  /**
   * When an entry is due: while it is pending, and the wait of its number of
   * attempts has passed since the last of them or, before the first, since it
   * was queued. A moment past the last representable one counts as that one.
   */
  lemma DueExactlyWhen(e: QueuedDelivery, now: int)
    ensures
      var since := if e.lastAttempt.Some? then e.lastAttempt.value else e.enqueuedAt;
      var wait :=
        if e.attempts == 0 then 0 else if e.attempts == 1 then 5_000 else if e.attempts == 2 then 25_000
        else if e.attempts == 3 then 120_000 else 600_000;
      IsDue(e, now) <==> e.state == Pending && (now - since >= wait || now >= 0x7FFF_FFFF_FFFF_FFFF)
  {
  }

  /** A later attempt never waits less, and up to the fifth each waits longer than the one before. */
  lemma WaitsGrow(m: nat, n: nat)
    requires m < n
    ensures BackoffMs(m) <= BackoffMs(n)
    ensures n <= 4 ==> BackoffMs(m) < BackoffMs(n)
  {
  }

  // ---------------------------------------------------------------- changing the list

  ghost predicate FirstAt(q: Queue, id: string, at: nat) {
    && at < |q|
    && q[at].id == id
    && forall i :: 0 <= i < at ==> q[i].id != id
  }

  lemma {:induction false} FirstExists(q: Queue, id: string, i: nat)
    requires i < |q| && q[i].id == id
    ensures exists at: nat :: FirstAt(q, id, at)
  {
    if j: nat :| j < i && q[j].id == id {
      FirstExists(q, id, j);
    } else {
      assert FirstAt(q, id, i);
    }
  }

  /** Position of the first entry carrying `id`, or the length when there is none. */
  ghost function Find(q: Queue, id: string): (at: nat)
    ensures at <= |q|
    ensures at < |q| ==> q[at].id == id
    ensures forall i :: 0 <= i < at ==> q[i].id != id
  {
    if exists at: nat :: FirstAt(q, id, at) then
      var at: nat :| FirstAt(q, id, at); at
    else
      assert forall i :: 0 <= i < |q| && q[i].id == id ==> false by {
        forall i | 0 <= i < |q| && q[i].id == id ensures false {
          FirstExists(q, id, i);
        }
      }
      |q|
  }

  function Delivered(e: QueuedDelivery): QueuedDelivery {
    e.(state := Sent, lastError := None)
  }

  function AfterFailure(e: QueuedDelivery, error: string, now: int): QueuedDelivery {
    var tried := e.(attempts := e.attempts + 1, lastAttempt := Some(now), lastError := Some(error));
    if IsPermanentError(error) || tried.attempts >= MAX_ATTEMPTS then tried.(state := Failed) else tried
  }

  ghost function RecordSuccess(q: Queue, id: string): Queue {
    var at := Find(q, id);
    if at < |q| then q[at := Delivered(q[at])] else q
  }

  ghost function RecordFailure(q: Queue, id: string, error: string, now: int): Queue {
    var at := Find(q, id);
    if at < |q| then q[at := AfterFailure(q[at], error, now)] else q
  }

  /** The state reported to the caller of `record_failure`; an unknown id reads as failed. */
  ghost function FailureState(q: Queue, id: string, error: string, now: int): DeliveryState {
    var at := Find(q, id);
    if at < |q| then AfterFailure(q[at], error, now).state else Failed
  }

  /**
   * Recording touches the first entry that carries the id and nothing else. A
   * success marks it sent and forgets the error; a failure counts, is dated and
   * kept, and ends it when it is permanent or the fifth.
   */
  lemma RecordsTouchOne(q: Queue, id: string, error: string, now: int, i: nat)
    requires i < |q|
    ensures |RecordSuccess(q, id)| == |RecordFailure(q, id, error, now)| == |q|
    ensures
      var first := q[i].id == id && forall k :: 0 <= k < i ==> q[k].id != id;
      && RecordSuccess(q, id)[i] == (if first then q[i].(state := Sent, lastError := None) else q[i])
      && RecordFailure(q, id, error, now)[i] ==
           (if first then
              q[i].(attempts := q[i].attempts + 1, lastAttempt := Some(now), lastError := Some(error),
                    state := if IsPermanentError(error) || q[i].attempts + 1 >= 5 then Failed else q[i].state)
            else q[i])
      && (first ==> FailureState(q, id, error, now) == RecordFailure(q, id, error, now)[i].state)
  {
    if Find(q, id) < |q| {
      assert Find(q, id) == i || q[i].id != id || Find(q, id) < i;
    }
  }

  /** An id the list does not hold changes nothing, and its failure is answered with failed. */
  lemma UnknownIdsChangeNothing(q: Queue, id: string, error: string, now: int)
    requires forall e :: e in q ==> e.id != id
    ensures RecordSuccess(q, id) == q && RecordFailure(q, id, error, now) == q
    ensures FailureState(q, id, error, now) == Failed
  {
    assert forall i :: 0 <= i < |q| ==> q[i] in q;
  }

  /** The list without its first `n` finished entries. */
  function DropFinished(q: Queue, n: nat): Queue {
    if q == [] then []
    else if n > 0 && IsFinished(q[0]) then DropFinished(q[1..], n - 1)
    else [q[0]] + DropFinished(q[1..], n)
  }

  function Bounded(q: Queue): Queue {
    if |q| > MAX_ENTRIES then DropFinished(q, |q| - MAX_ENTRIES) else q
  }

  function Enqueued(q: Queue, e: QueuedDelivery): Queue {
    Bounded(q + [e])
  }

  function Pruned(q: Queue): Queue {
    Keep(IsPending, q)
  }

  /** Pruning keeps every pending entry, as often as it was there, and no other. */
  lemma PrunedIsExact(q: Queue, e: QueuedDelivery)
    ensures multiset(Pruned(q))[e] == if e.state == Pending then multiset(q)[e] else 0
  {
    if e.state == Pending {
      KeepCount(IsPending, q, e);
    } else {
      KeepMembers(IsPending, q);
      assert e !in Pruned(q);
    }
  }

  /** Where eviction stops dropping. */
  ghost function CutPoint(q: Queue, n: nat): nat {
    if q == [] || n == 0 then 0
    else 1 + CutPoint(q[1..], if IsFinished(q[0]) then n - 1 else n)
  }

  lemma {:induction false} CutContents(q: Queue, n: nat)
    ensures CutPoint(q, n) <= |q|
    ensures DropFinished(q, n) == Keep(IsPending, q[..CutPoint(q, n)]) + q[CutPoint(q, n)..]
  {
    if q == [] {
    } else if n == 0 {
      NothingDropped(q);
      assert q[..0] == [];
    } else {
      var left := if IsFinished(q[0]) then n - 1 else n;
      CutContents(q[1..], left);
      var cut := CutPoint(q[1..], left);
      var head := if IsPending(q[0]) then [q[0]] else [];
      assert q[..cut + 1][1..] == q[1..][..cut];
      assert q[cut + 1..] == q[1..][cut..];
      assert Keep(IsPending, q[..cut + 1]) == head + Keep(IsPending, q[1..][..cut]);
      assert DropFinished(q, n) == head + DropFinished(q[1..], left);
      ConcatAssociates(head, Keep(IsPending, q[1..][..cut]), q[cut + 1..]);
    }
  }

  lemma {:induction false} CutCount(q: Queue, n: nat)
    ensures CutPoint(q, n) <= |q|
    ensures |Keep(IsFinished, q[..CutPoint(q, n)])| == Min(n, |Keep(IsFinished, q)|)
  {
    if q != [] && n > 0 {
      var left := if IsFinished(q[0]) then n - 1 else n;
      CutCount(q[1..], left);
      assert q[..CutPoint(q, n)][1..] == q[1..][..CutPoint(q[1..], left)];
    }
  }

  /**
   * Eviction is a cut: before it nothing finished survives and everything
   * pending does, after it everything survives, and exactly min(n, finished)
   * entries went.
   */
  lemma EvictionIsACut(q: Queue, n: nat)
    ensures CutPoint(q, n) <= |q|
    ensures DropFinished(q, n) == Keep(IsPending, q[..CutPoint(q, n)]) + q[CutPoint(q, n)..]
    ensures |Keep(IsFinished, q[..CutPoint(q, n)])| == Min(n, |Keep(IsFinished, q)|)
  {
    CutContents(q, n);
    CutCount(q, n);
  }

  lemma {:induction false} NothingDropped(q: Queue)
    ensures DropFinished(q, 0) == q
  {
    if q != [] {
      NothingDropped(q[1..]);
    }
  }

  lemma {:induction false} DroppedKeepsPending(q: Queue, n: nat)
    ensures Keep(IsPending, DropFinished(q, n)) == Keep(IsPending, q)
    ensures Keep(IsFinished, DropFinished(q, n)) == Keep(IsFinished, q)[Min(n, |Keep(IsFinished, q)|)..]
    ensures |DropFinished(q, n)| == |q| - Min(n, |Keep(IsFinished, q)|)
  {
    EvictionIsACut(q, n);
    var cut := CutPoint(q, n);
    var before, after := q[..cut], q[cut..];
    assert q == before + after;
    KeepConcat(IsPending, before, after);
    KeepConcat(IsFinished, before, after);
    KeepConcat(IsPending, Keep(IsPending, before), after);
    KeepConcat(IsFinished, Keep(IsPending, before), after);
    KeepMembers(IsPending, before);
    KeepAll(IsPending, Keep(IsPending, before));
    KeepNothing(IsFinished, Keep(IsPending, before));
    KeepPartition(IsPending, IsFinished, before);
  }

  /**
   * Adding a message never loses one that is still waiting. Room is made by
   * dropping the oldest finished entries and only as many as needed; when that
   * cannot be enough the list holds nothing but pending messages.
   */
  lemma EnqueueKeepsEveryPending(q: Queue, e: QueuedDelivery)
    requires e.state == Pending
    ensures Keep(IsPending, Enqueued(q, e)) == Keep(IsPending, q) + [e]
    ensures
      var finished := Keep(IsFinished, q);
      var excess := if |q| + 1 > 2000 then |q| + 1 - 2000 else 0;
      && Keep(IsFinished, Enqueued(q, e)) == finished[Min(excess, |finished|)..]
      && |Enqueued(q, e)| == |q| + 1 - Min(excess, |finished|)
    ensures |Enqueued(q, e)| <= 2000 || forall x :: x in Enqueued(q, e) ==> x.state == Pending
  {
    AddedAtTheEnd(q, e);
    BoundedKeepsPending(q + [e]);
    if |Enqueued(q, e)| > MAX_ENTRIES {
      AllArePending(Enqueued(q, e));
    }
  }

  lemma BoundedKeepsPending(all: Queue)
    ensures Keep(IsPending, Bounded(all)) == Keep(IsPending, all)
    ensures
      var finished := Keep(IsFinished, all);
      var excess := if |all| > MAX_ENTRIES then |all| - MAX_ENTRIES else 0;
      && Keep(IsFinished, Bounded(all)) == finished[Min(excess, |finished|)..]
      && |Bounded(all)| == |all| - Min(excess, |finished|)
  {
    if |all| > MAX_ENTRIES {
      DroppedKeepsPending(all, |all| - MAX_ENTRIES);
    }
  }

  lemma AllArePending(q: Queue)
    requires Keep(IsFinished, q) == []
    ensures forall x :: x in q ==> x.state == Pending
  {
    KeepMembers(IsFinished, q);
    forall x | x in q ensures x.state == Pending {
      assert !(x in Keep(IsFinished, q));
    }
  }

  /** Adding at the end, before anything is dropped. */
  lemma AddedAtTheEnd(q: Queue, e: QueuedDelivery)
    requires e.state == Pending
    ensures Keep(IsPending, q + [e]) == Keep(IsPending, q) + [e]
    ensures Keep(IsFinished, q + [e]) == Keep(IsFinished, q)
  {
    KeepConcat(IsPending, q, [e]);
    KeepConcat(IsFinished, q, [e]);
    assert Keep(IsPending, [e]) == [e] && Keep(IsFinished, [e]) == [];
  }

  // ---------------------------------------------------------------- lifecycle

  /**
   * Holds of every entry the queue itself creates, and is kept by a failure
   * recorded against a pending entry. A file may hold entries without it, and
   * failures recorded late, against finished entries, can exceed it.
   */
  ghost predicate WithinBudget(e: QueuedDelivery) {
    && e.attempts <= MAX_ATTEMPTS
    && (e.state == Pending ==> e.attempts < MAX_ATTEMPTS)
  }

  ghost predicate AllWithinBudget(q: Queue) {
    forall e :: e in q ==> WithinBudget(e)
  }

  /** A recorded failure finishes a pending entry, or leaves it pending with attempts to spare. */
  lemma FailureKeepsBudget(e: QueuedDelivery, error: string, now: int)
    requires e.state == Pending
    ensures WithinBudget(e) ==> WithinBudget(AfterFailure(e, error, now))
    ensures AfterFailure(e, error, now).state == Failed <==> IsPermanentError(error) || e.attempts + 1 >= 5
    ensures AfterFailure(e, error, now).state == Pending ==>
              !IsDue(AfterFailure(e, error, now), now) || now >= MAX_I64
  {
  }

  /**
   * Recording a failure against an entry that is already finished leaves its
   * state alone exactly when the entry had failed already or the failure is
   * neither permanent nor the last one allowed.
   */
  lemma LateFailureKeepsState(e: QueuedDelivery, error: string, now: int)
    requires e.state != Pending
    ensures AfterFailure(e, error, now).state == e.state <==>
            e.state == Failed || (!IsPermanentError(error) && e.attempts + 1 < 5)
  {
  }

  // ---------------------------------------------------------------- the object

  class DeliveryQueue {
    var entries: Queue
    var file: File<Queue>
    var temporary: File<Queue>
    var loadError: Option<string>

    /** Load from the file; an absent file is an empty queue, an unreadable one is remembered. */
    constructor Load(file: File<Queue>, temporary: File<Queue>, readError: Option<string>)
      ensures this.file == file && this.temporary == temporary
      ensures file.Missing? ==> entries == [] && loadError == None
      ensures !file.Missing? && readError.Some? ==> entries == [] && loadError == readError
      ensures file.Whole? && readError.None? ==> entries == file.content && loadError == None
      ensures file.Partial? ==> entries == [] && loadError.Some?
    {
      this.file, this.temporary := file, temporary;
      if file.Missing? {
        entries, loadError := [], None;
      } else if readError.Some? {
        entries, loadError := [], readError;
      } else if file.Partial? {
        entries, loadError := [], Some("cannot parse the queue");
      } else {
        entries, loadError := file.content, None;
      }
    }

    method Save(io: SaveIo) returns (r: Result<()>)
      modifies this`file, this`temporary
      ensures r.Success? <==> loadError.None? && io == Saved
      ensures file == if r.Success? then Whole(entries) else old(file)
      ensures loadError.Some? ==> temporary == old(temporary)
      ensures temporary.Whole? && temporary != old(temporary) ==> temporary.content == entries
    {
      if loadError.Some? {
        return Failure("refusing to overwrite an unreadable delivery queue");
      }
      if io == NoDirectory {
        return Failure("create_dir_all");
      }
      var payload := entries;
      if io == NotWritten {
        temporary := Partial;
        return Failure("write");
      }
      temporary := Whole(payload);
      if io == NotRenamed {
        return Failure("rename");
      }
      file, temporary := temporary, Missing;
      return Success(());
    }

    /** Drop the oldest finished entries, at most `excess` of them. */
    static method Evict(all: Queue, excess: nat) returns (kept: Queue)
      ensures kept == DropFinished(all, excess)
    {
      var dropped := 0;
      kept := [];
      for i := 0 to |all|
        invariant 0 <= dropped <= excess
        invariant kept + DropFinished(all[i..], excess - dropped) == DropFinished(all, excess)
      {
        assert all[i..][0] == all[i] && all[i..][1..] == all[i + 1..];
        ConcatAssociates(kept, [all[i]], DropFinished(all[i + 1..], excess - dropped));
        if dropped < excess && all[i].state != Pending {
          dropped := dropped + 1;
        } else {
          kept := kept + [all[i]];
        }
      }
    }

    method Enqueue(id: string, channel: string, conversation: ConversationRef, text: string, now: int, io: SaveIo)
      returns (r: Result<string>)
      modifies this`entries, this`file, this`temporary
      ensures entries == Enqueued(old(entries), QueuedDelivery(id, channel, conversation, text, 0, Pending, None, None, now))
      ensures r.Success? <==> loadError.None? && io == Saved
      ensures r.Success? ==> r.value == id && file == Whole(entries)
      ensures r.Failure? ==> file == old(file)
    {
      entries := entries + [QueuedDelivery(id, channel, conversation, text, 0, Pending, None, None, now)];
      if |entries| > MAX_ENTRIES {
        var kept := Evict(entries, |entries| - MAX_ENTRIES);
        entries := kept;
      }
      var saved := Save(io);
      if saved.Failure? {
        return Failure(saved.error);
      }
      return Success(id);
    }

    method PendingEntries() returns (r: Queue)
      ensures r == PendingOf(entries)
    {
      var picked: Queue := [];
      for i := 0 to |entries|
        invariant picked == Keep(IsPending, entries[..i])
      {
        KeepSnoc(IsPending, entries, i);
        if entries[i].state == Pending {
          picked := picked + [entries[i]];
        }
      }
      assert entries[..|entries|] == entries;
      r := SortBy(EnqueueTime(), picked);
    }

    method Due(now: int) returns (r: Queue)
      ensures r == DueOf(entries, now)
    {
      var waiting := PendingEntries();
      r := [];
      for i := 0 to |waiting|
        invariant r == Keep(DueAt(now), waiting[..i])
      {
        KeepSnoc(DueAt(now), waiting, i);
        if IsDue(waiting[i], now) {
          r := r + [waiting[i]];
        }
      }
      assert waiting[..|waiting|] == waiting;
    }

    /** The first entry carrying `id`, if there is one. */
    method Locate(id: string) returns (at: nat)
      ensures at == Find(entries, id)
    {
      at := 0;
      while at < |entries| && entries[at].id != id
        invariant at <= |entries|
        invariant forall i :: 0 <= i < at ==> entries[i].id != id
      {
        at := at + 1;
      }
    }

    method MarkSuccess(id: string, io: SaveIo) returns (r: Result<()>)
      modifies this`entries, this`file, this`temporary
      ensures entries == RecordSuccess(old(entries), id)
      ensures r.Success? <==> loadError.None? && io == Saved
      ensures file == if r.Success? then Whole(entries) else old(file)
    {
      var at := Locate(id);
      if at < |entries| {
        entries := entries[at := entries[at].(state := Sent, lastError := None)];
      }
      r := Save(io);
    }

    method MarkFailure(id: string, error: string, now: int, io: SaveIo) returns (state: DeliveryState)
      modifies this`entries, this`file, this`temporary
      ensures entries == RecordFailure(old(entries), id, error, now)
      ensures state == FailureState(old(entries), id, error, now)
      ensures file == if loadError.None? && io == Saved then Whole(entries) else old(file)
    {
      var at := Locate(id);
      if at < |entries| {
        var entry := entries[at];
        entry := entry.(attempts := entry.attempts + 1);
        entry := entry.(lastAttempt := Some(now));
        entry := entry.(lastError := Some(error));
        if IsPermanentError(error) || entry.attempts >= MAX_ATTEMPTS {
          entry := entry.(state := Failed);
        }
        entries := entries[at := entry];
        state := entry.state;
      } else {
        state := Failed;
      }
      var _ := Save(io);
    }

    method PruneFinished(io: SaveIo) returns (r: Result<nat>)
      modifies this`entries, this`file, this`temporary
      ensures entries == Pruned(old(entries))
      ensures r.Success? <==> loadError.None? && io == Saved
      ensures r.Success? ==> r.value == |Keep(IsFinished, old(entries))| && file == Whole(entries)
      ensures r.Failure? ==> file == old(file)
    {
      var before := |entries|;
      KeepPartition(IsPending, IsFinished, entries);
      var all := entries;
      var kept: Queue := [];
      for i := 0 to |all|
        invariant kept == Keep(IsPending, all[..i])
        invariant file == old(file)
      {
        KeepSnoc(IsPending, all, i);
        if all[i].state == Pending {
          kept := kept + [all[i]];
        }
      }
      assert all[..|all|] == all;
      entries := kept;
      var removed := before - |entries|;
      var saved := Save(io);
      if saved.Failure? {
        return Failure(saved.error);
      }
      return Success(removed);
    }
  }
}
