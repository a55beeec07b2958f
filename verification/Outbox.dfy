/**
 * Draining the durable queue (channels/src/outbox.rs).
 *
 * The platform is an oracle: for each attempt of a pass it says whether the
 * channel can be built, what it answers to each piece, when the outcome is
 * recorded and how the save that follows fares.
 */
module Outbox {
  import opened Wrappers
  import opened Sequences
  import opened ErrorText
  import opened Delivery

  datatype DeliveryOutcome = Sent | Retried | Failed

  /** `reply(i)` answers piece `i`: nothing when it is accepted, else the error. */
  datatype Channel = Unavailable(reason: string) | Available(reply: nat -> Option<string>)

  datatype Attempt = Attempt(channel: Channel, now: int, io: SaveIo)

  datatype DrainSummary = DrainSummary(sent: nat, retried: nat, failed: nat, skipped: nat)

  /** One piece accepted by a platform. */
  datatype Piece = Piece(id: string, text: string)

  type Chunker = QueuedDelivery -> seq<string>

  /** Index of the first refused piece, or `n` when all were accepted. */
  function Accepted(reply: nat -> Option<string>, n: nat): (k: nat)
    ensures k <= n
    ensures forall i :: 0 <= i < k ==> reply(i).None?
    ensures k < n ==> reply(k).Some?
  {
    if n == 0 then 0
    else
      var k := Accepted(reply, n - 1);
      if k < n - 1 then k else if reply(n - 1).Some? then n - 1 else n
  }

  /** Why an attempt failed, if it did. */
  function FailureOf(e: QueuedDelivery, a: Attempt, chunk: Chunker): Option<string> {
    match a.channel
    case Unavailable(reason) => Some(e.channel + " is not available: " + reason)
    case Available(reply) =>
      var k := Accepted(reply, |chunk(e)|);
      if k < |chunk(e)| then reply(k) else None
  }

  function PiecesOf(e: QueuedDelivery, a: Attempt, chunk: Chunker): seq<string> {
    match a.channel
    case Unavailable(_) => []
    case Available(reply) => chunk(e)[..Accepted(reply, |chunk(e)|)]
  }

  function OnWire(id: string, texts: seq<string>): seq<Piece> {
    seq(|texts|, i requires 0 <= i < |texts| => Piece(id, texts[i]))
  }

  /** What one attempt makes of a stored entry. */
  function AfterAttempt(stored: QueuedDelivery, e: QueuedDelivery, a: Attempt, chunk: Chunker): QueuedDelivery {
    match FailureOf(e, a, chunk)
    case None => Delivered(stored)
    case Some(error) => AfterFailure(stored, error, a.now)
  }

  function OutcomeFor(state: DeliveryState): DeliveryOutcome {
    if state == DeliveryState.Failed then DeliveryOutcome.Failed else DeliveryOutcome.Retried
  }

  ghost function QueueAfter(q: Queue, e: QueuedDelivery, a: Attempt, chunk: Chunker): Queue {
    match FailureOf(e, a, chunk)
    case None => RecordSuccess(q, e.id)
    case Some(error) => RecordFailure(q, e.id, error, a.now)
  }

  ghost function OutcomeAfter(q: Queue, e: QueuedDelivery, a: Attempt, chunk: Chunker): DeliveryOutcome {
    match FailureOf(e, a, chunk)
    case None => DeliveryOutcome.Sent
    case Some(error) => OutcomeFor(FailureState(q, e.id, error, a.now))
  }

  datatype Pass = Pass(queue: Queue, outcomes: seq<DeliveryOutcome>, wire: seq<Piece>)

  ghost function Advance(p: Pass, e: QueuedDelivery, a: Attempt, chunk: Chunker): Pass {
    Pass(QueueAfter(p.queue, e, a, chunk),
         p.outcomes + [OutcomeAfter(p.queue, e, a, chunk)],
         p.wire + OnWire(e.id, PiecesOf(e, a, chunk)))
  }

  /** A pass over the first `k` of the entries that were due when it started. */
  ghost function DrainTo(q: Queue, due: Queue, world: nat -> Attempt, chunk: Chunker, k: nat): Pass
    requires k <= |due|
  {
    if k == 0 then Pass(q, [], [])
    else Advance(DrainTo(q, due, world, chunk, k - 1), due[k - 1], world(k - 1), chunk)
  }

  lemma DrainToNext(q: Queue, due: Queue, world: nat -> Attempt, chunk: Chunker, k: nat)
    requires k < |due|
    ensures DrainTo(q, due, world, chunk, k + 1) == Advance(DrainTo(q, due, world, chunk, k), due[k], world(k), chunk)
  {
  }

  ghost function Drain(q: Queue, now: int, world: nat -> Attempt, chunk: Chunker): Pass {
    DrainTo(q, DueOf(q, now), world, chunk, |DueOf(q, now)|)
  }

  function IsOutcome(o: DeliveryOutcome): DeliveryOutcome -> bool {
    x => x == o
  }

  function Count(o: DeliveryOutcome, outcomes: seq<DeliveryOutcome>): nat {
    |Keep(IsOutcome(o), outcomes)|
  }

  function Summary(outcomes: seq<DeliveryOutcome>): DrainSummary {
    DrainSummary(Count(DeliveryOutcome.Sent, outcomes), Count(DeliveryOutcome.Retried, outcomes), Count(DeliveryOutcome.Failed, outcomes), 0)
  }

  function Recorded(s: DrainSummary, o: DeliveryOutcome): DrainSummary {
    match o
    case Sent => s.(sent := s.sent + 1)
    case Retried => s.(retried := s.retried + 1)
    case Failed => s.(failed := s.failed + 1)
  }

  lemma SummarySnoc(outcomes: seq<DeliveryOutcome>, o: DeliveryOutcome)
    ensures Summary(outcomes + [o]) == Recorded(Summary(outcomes), o)
  {
    CountSnoc(outcomes, o);
  }

  /** One attempt more in the summary and on the wire. */
  lemma AdvanceAddsUp(p: Pass, e: QueuedDelivery, a: Attempt, chunk: Chunker, before: seq<Piece>)
    ensures
      var q := Advance(p, e, a, chunk);
      && Summary(q.outcomes) == Recorded(Summary(p.outcomes), OutcomeAfter(p.queue, e, a, chunk))
      && before + q.wire == (before + p.wire) + OnWire(e.id, PiecesOf(e, a, chunk))
  {
    ConcatAssociates(before, p.wire, OnWire(e.id, PiecesOf(e, a, chunk)));
    SummarySnoc(p.outcomes, OutcomeAfter(p.queue, e, a, chunk));
  }

  // ---------------------------------------------------------------- ids

  ghost predicate UniqueIds(q: Queue) {
    forall i, j :: 0 <= i < j < |q| ==> q[i].id != q[j].id
  }

  lemma {:induction false} KeepUniqueIds(p: QueuedDelivery -> bool, q: Queue)
    requires UniqueIds(q)
    ensures UniqueIds(Keep(p, q))
  {
    if q != [] {
      KeepUniqueIds(p, q[1..]);
      KeepMembers(p, q[1..]);
      var rest := Keep(p, q[1..]);
      assert forall i :: 0 <= i < |rest| ==> rest[i] in rest;
    }
  }

  lemma {:induction false} SortUniqueIds(q: Queue)
    requires UniqueIds(q)
    ensures UniqueIds(SortBy(EnqueueTime(), q))
    ensures forall x :: x in SortBy(EnqueueTime(), q) ==> x in q
  {
    if q != [] {
      SortUniqueIds(q[1..]);
      InsertUniqueIds(q[0], SortBy(EnqueueTime(), q[1..]));
      InsertContents(EnqueueTime(), q[0], SortBy(EnqueueTime(), q[1..]));
    }
  }

  lemma {:induction false} InsertUniqueIds(e: QueuedDelivery, s: Queue)
    requires UniqueIds(s)
    requires forall x :: x in s ==> x.id != e.id
    ensures UniqueIds(Insert(EnqueueTime(), e, s))
  {
    if s != [] && e.enqueuedAt > s[0].enqueuedAt {
      InsertUniqueIds(e, s[1..]);
      InsertContents(EnqueueTime(), e, s[1..]);
      var r := Insert(EnqueueTime(), e, s[1..]);
      assert forall i :: 0 <= i < |r| ==> r[i] in r;
    }
  }

  lemma DueUniqueIds(q: Queue, now: int)
    requires UniqueIds(q)
    ensures UniqueIds(DueOf(q, now))
  {
    KeepUniqueIds(IsPending, q);
    SortUniqueIds(Keep(IsPending, q));
    KeepUniqueIds(DueAt(now), PendingOf(q));
  }

  // ---------------------------------------------------------------- one pass

  function OutcomeOf(e: QueuedDelivery, a: Attempt, chunk: Chunker): DeliveryOutcome {
    if FailureOf(e, a, chunk).None? then DeliveryOutcome.Sent else OutcomeFor(AfterAttempt(e, e, a, chunk).state)
  }

  /** What becomes of one entry in the first `k` attempts of a pass. */
  ghost function Expected(e: QueuedDelivery, due: Queue, world: nat -> Attempt, chunk: Chunker, k: nat): QueuedDelivery {
    var turn := Find(due, e.id);
    if turn < |due| && turn < k then AfterAttempt(e, e, world(turn), chunk) else e
  }

  ghost predicate Accounted(q: Queue, due: Queue, world: nat -> Attempt, chunk: Chunker, p: Pass, k: nat) {
    && k <= |due| && |p.outcomes| == k
    && |p.queue| == |q|
    && (forall j {:trigger p.queue[j]} :: 0 <= j < |q| ==> p.queue[j] == Expected(q[j], due, world, chunk, k))
    && (forall i :: 0 <= i < k ==> p.outcomes[i] == OutcomeOf(due[i], world(i), chunk))
  }

  ghost predicate Balanced(q: Queue, p: Pass) {
    && Total(PendingUnit, p.queue) == Total(PendingUnit, q) - Count(DeliveryOutcome.Sent, p.outcomes) - Count(DeliveryOutcome.Failed, p.outcomes)
    && Total(Remaining, p.queue) + |p.outcomes| <= Total(Remaining, q)
  }

  function PendingUnit(e: QueuedDelivery): int {
    if e.state == Pending then 1 else 0
  }

  /** Attempts that can still be made for an entry; one that came with too many failures gets a single one. */
  function Remaining(e: QueuedDelivery): int {
    if e.state != Pending then 0
    else if e.attempts < MAX_ATTEMPTS then MAX_ATTEMPTS - e.attempts
    else 1
  }

  lemma {:induction false} PendingTotal(q: Queue)
    ensures Total(PendingUnit, q) == |Keep(IsPending, q)|
  {
    if q != [] {
      PendingTotal(q[1..]);
    }
  }

  /** What a pass needs to know about the entries it is going to attempt. */
  ghost predicate PendingEntriesOf(due: Queue, q: Queue) {
    && UniqueIds(due)
    && forall i :: 0 <= i < |due| ==> due[i] in q && due[i].state == Pending
  }

  lemma DueEntries(q: Queue, now: int)
    requires UniqueIds(q)
    ensures PendingEntriesOf(DueOf(q, now), q)
  {
    DueUniqueIds(q, now);
    DueIsExact(q, now);
  }

  /** One attempt touches the entry it is about and nothing else. */
  lemma AttemptStep(q: Queue, j: nat, a: Attempt, chunk: Chunker)
    requires UniqueIds(q) && j < |q|
    ensures QueueAfter(q, q[j], a, chunk) == q[j := AfterAttempt(q[j], q[j], a, chunk)]
    ensures OutcomeAfter(q, q[j], a, chunk) == OutcomeOf(q[j], a, chunk)
  {
    assert Find(q, q[j].id) == j;
  }

  lemma ExpectedKeepsId(e: QueuedDelivery, due: Queue, world: nat -> Attempt, chunk: Chunker, k: nat)
    ensures Expected(e, due, world, chunk, k).id == e.id
  {
  }

  lemma AccountedIds(q: Queue, due: Queue, world: nat -> Attempt, chunk: Chunker, p: Pass, k: nat)
    requires UniqueIds(q) && Accounted(q, due, world, chunk, p, k)
    ensures UniqueIds(p.queue)
  {
    forall j | 0 <= j < |q| ensures p.queue[j].id == q[j].id {
      ExpectedKeepsId(q[j], due, world, chunk, k);
    }
  }

  lemma AccountedStep(q: Queue, due: Queue, world: nat -> Attempt, chunk: Chunker, p: Pass, k: nat, j: nat)
    requires UniqueIds(q) && UniqueIds(due) && k < |due|
    requires j < |q| && q[j] == due[k]
    requires Accounted(q, due, world, chunk, p, k)
    ensures p.queue[j] == q[j] && UniqueIds(p.queue)
    ensures Accounted(q, due, world, chunk, Advance(p, due[k], world(k), chunk), k + 1)
  {
    assert Find(due, q[j].id) == k;
    AccountedIds(q, due, world, chunk, p, k);
    AttemptStep(p.queue, j, world(k), chunk);
    forall i | 0 <= i < |q| && i != j ensures Find(due, q[i].id) != k {
      assert q[i].id != q[j].id;
    }
  }

  lemma BalancedStep(q: Queue, p: Pass, j: nat, a: Attempt, chunk: Chunker)
    requires Balanced(q, p) && UniqueIds(p.queue) && j < |p.queue| && p.queue[j].state == Pending
    ensures Balanced(q, Advance(p, p.queue[j], a, chunk))
  {
    var e := p.queue[j];
    var x := AfterAttempt(e, e, a, chunk);
    AttemptStep(p.queue, j, a, chunk);
    AttemptEffect(e, a, chunk);
    TotalUpdate(PendingUnit, p.queue, j, x);
    TotalUpdate(Remaining, p.queue, j, x);
    CountSnoc(p.outcomes, OutcomeOf(e, a, chunk));
  }

  lemma AccountedTurn(q: Queue, due: Queue, world: nat -> Attempt, chunk: Chunker, p: Pass, k: nat)
    requires UniqueIds(q) && UniqueIds(due) && k < |due| && due[k] in q
    requires Accounted(q, due, world, chunk, p, k)
    ensures Accounted(q, due, world, chunk, Advance(p, due[k], world(k), chunk), k + 1)
  {
    var j := PlaceOf(q, due[k]);
    AccountedStep(q, due, world, chunk, p, k, j);
  }

  lemma {:induction false} AccountedPrefix(q: Queue, due: Queue, world: nat -> Attempt, chunk: Chunker, k: nat)
    requires UniqueIds(q) && PendingEntriesOf(due, q) && k <= |due|
    ensures Accounted(q, due, world, chunk, DrainTo(q, due, world, chunk, k), k)
  {
    if k > 0 {
      AccountedPrefix(q, due, world, chunk, k - 1);
      AccountedTurn(q, due, world, chunk, DrainTo(q, due, world, chunk, k - 1), k - 1);
    }
  }

  lemma PlaceOf(q: Queue, e: QueuedDelivery) returns (j: nat)
    requires e in q
    ensures j < |q| && q[j] == e
  {
    j :| 0 <= j < |q| && q[j] == e;
  }

  lemma BalancedTurn(q: Queue, due: Queue, world: nat -> Attempt, chunk: Chunker, p: Pass, k: nat)
    requires UniqueIds(q) && UniqueIds(due) && k < |due| && due[k] in q && due[k].state == Pending
    requires Accounted(q, due, world, chunk, p, k) && Balanced(q, p)
    ensures Balanced(q, Advance(p, due[k], world(k), chunk))
  {
    var j := PlaceOf(q, due[k]);
    AccountedStep(q, due, world, chunk, p, k, j);
    BalancedStep(q, p, j, world(k), chunk);
  }

  lemma BalancedNext(q: Queue, due: Queue, world: nat -> Attempt, chunk: Chunker, k: nat)
    requires UniqueIds(q) && PendingEntriesOf(due, q) && k < |due|
    requires Balanced(q, DrainTo(q, due, world, chunk, k))
    ensures Balanced(q, DrainTo(q, due, world, chunk, k + 1))
  {
    AccountedPrefix(q, due, world, chunk, k);
    BalancedTurn(q, due, world, chunk, DrainTo(q, due, world, chunk, k), k);
    DrainToNext(q, due, world, chunk, k);
  }

  lemma {:induction false} BalancedPrefix(q: Queue, due: Queue, world: nat -> Attempt, chunk: Chunker, k: nat)
    requires UniqueIds(q) && PendingEntriesOf(due, q) && k <= |due|
    ensures Balanced(q, DrainTo(q, due, world, chunk, k))
  {
    if k > 0 {
      BalancedPrefix(q, due, world, chunk, k - 1);
      BalancedNext(q, due, world, chunk, k - 1);
    }
  }

  /** The books of a pass after its first `k` attempts. */
  lemma DrainPrefix(q: Queue, due: Queue, world: nat -> Attempt, chunk: Chunker, k: nat)
    requires UniqueIds(q) && PendingEntriesOf(due, q)
    requires k <= |due|
    ensures Accounted(q, due, world, chunk, DrainTo(q, due, world, chunk, k), k)
    ensures Balanced(q, DrainTo(q, due, world, chunk, k))
  {
    AccountedPrefix(q, due, world, chunk, k);
    BalancedPrefix(q, due, world, chunk, k);
  }

  lemma AttemptEffect(e: QueuedDelivery, a: Attempt, chunk: Chunker)
    requires e.state == Pending
    ensures
      var x := AfterAttempt(e, e, a, chunk);
      && (WithinBudget(e) ==> WithinBudget(x))
      && Remaining(x) < Remaining(e)
      && PendingUnit(x) == (if OutcomeOf(e, a, chunk) == DeliveryOutcome.Retried then 1 else 0)
  {
  }

  lemma CountSnoc(outcomes: seq<DeliveryOutcome>, o: DeliveryOutcome)
    ensures forall x :: Count(x, outcomes + [o]) == Count(x, outcomes) + (if x == o then 1 else 0)
  {
    forall x ensures Count(x, outcomes + [o]) == Count(x, outcomes) + (if x == o then 1 else 0) {
      KeepConcat(IsOutcome(x), outcomes, [o]);
      assert Keep(IsOutcome(x), [o]) == if x == o then [o] else [];
    }
  }

  lemma {:induction false} OutcomesAddUp(outcomes: seq<DeliveryOutcome>)
    ensures Count(DeliveryOutcome.Sent, outcomes) + Count(DeliveryOutcome.Retried, outcomes) + Count(DeliveryOutcome.Failed, outcomes) == |outcomes|
  {
    if outcomes != [] {
      var last := |outcomes| - 1;
      OutcomesAddUp(outcomes[..last]);
      CountSnoc(outcomes[..last], outcomes[last]);
      assert outcomes == outcomes[..last] + [outcomes[last]];
    }
  }

  /**
   * The books of one pass: every entry due at its start gets exactly one
   * attempt, nothing else is touched, the counters add up to the number of due
   * entries, and the pending entries shrink by exactly the sent and the failed.
   */
  lemma DrainAccounting(q: Queue, now: int, world: nat -> Attempt, chunk: Chunker)
    requires UniqueIds(q)
    ensures
      var p := Drain(q, now, world, chunk);
      var summary := Summary(p.outcomes);
      && Accounted(q, DueOf(q, now), world, chunk, p, |DueOf(q, now)|)
      && summary.sent + summary.retried + summary.failed == |DueOf(q, now)|
      && |Keep(IsPending, p.queue)| == |Keep(IsPending, q)| - summary.sent - summary.failed
  {
    var due := DueOf(q, now);
    DueEntries(q, now);
    DrainPrefix(q, due, world, chunk, |due|);
    var p := DrainTo(q, due, world, chunk, |due|);
    OutcomesAddUp(p.outcomes);
    PendingTotal(q);
    PendingTotal(p.queue);
  }

  /** The pieces a platform takes in one attempt are all of them exactly when nothing fails. */
  lemma NoFailureMeansAllAccepted(e: QueuedDelivery, a: Attempt, chunk: Chunker)
    ensures FailureOf(e, a, chunk).None? <==>
            a.channel.Available? && forall n :: 0 <= n < |chunk(e)| ==> a.channel.reply(n).None?
  {
  }

  /**
   * Entry by entry: what is not due stays as it was; what is due meets the
   * attempt of its turn. It ends sent, attempts unchanged, exactly when the
   * channel could be built and every piece was accepted; otherwise it has one
   * attempt more.
   */
  lemma DrainEntry(q: Queue, now: int, world: nat -> Attempt, chunk: Chunker, j: nat)
    requires UniqueIds(q) && j < |q|
    ensures
      var p := Drain(q, now, world, chunk);
      var turn := Find(DueOf(q, now), q[j].id);
      && |p.queue| == |q|
      && (turn < |DueOf(q, now)| <==> IsDue(q[j], now))
      && (!IsDue(q[j], now) ==> p.queue[j] == q[j])
      && (IsDue(q[j], now) ==>
            var a := world(turn);
            && (p.queue[j].state == DeliveryState.Sent <==>
                  a.channel.Available? && forall n :: 0 <= n < |chunk(q[j])| ==> a.channel.reply(n).None?)
            && p.queue[j].attempts == q[j].attempts + (if p.queue[j].state == DeliveryState.Sent then 0 else 1))
  {
    DrainAccounting(q, now, world, chunk);
    DueIsExact(q, now);
    var due := DueOf(q, now);
    var turn := Find(due, q[j].id);
    if turn < |due| {
      assert due[turn] in due;
      assert q[j] == due[turn];
      NoFailureMeansAllAccepted(q[j], world(turn), chunk);
    } else {
      assert q[j] !in due;
    }
  }

  /** Piece `k` is the first the platform refuses. */
  ghost predicate RefusedAt(e: QueuedDelivery, a: Attempt, chunk: Chunker, k: nat) {
    && a.channel.Available? && k < |chunk(e)|
    && a.channel.reply(k).Some?
    && forall n :: 0 <= n < k ==> a.channel.reply(n).None?
  }

  /** What is recorded of a refused attempt is the platform's own answer, and it decides whether the message is given up. */
  lemma FailureIsTheAnswer(e: QueuedDelivery, a: Attempt, chunk: Chunker, k: nat)
    requires e.state == DeliveryState.Pending && RefusedAt(e, a, chunk, k)
    ensures
      var x, error := AfterAttempt(e, e, a, chunk), a.channel.reply(k).value;
      && x.lastError == Some(error) && x.lastAttempt == Some(a.now) && x.attempts == e.attempts + 1
      && (x.state == DeliveryState.Failed <==> IsPermanentError(error) || e.attempts + 1 >= 5)
      && (x.state == DeliveryState.Failed || x.state == DeliveryState.Pending)
    ensures OutcomeOf(e, a, chunk) ==
              if IsPermanentError(a.channel.reply(k).value) || e.attempts + 1 >= 5 then DeliveryOutcome.Failed
              else DeliveryOutcome.Retried
  {
    assert Accepted(a.channel.reply, |chunk(e)|) == k;
  }

  /** What is recorded when the channel cannot be built names the channel and the reason. */
  lemma FailureIsTheReason(e: QueuedDelivery, a: Attempt, chunk: Chunker)
    requires e.state == DeliveryState.Pending && a.channel.Unavailable?
    ensures
      var x, error := AfterAttempt(e, e, a, chunk), e.channel + " is not available: " + a.channel.reason;
      && x.lastError == Some(error) && x.lastAttempt == Some(a.now) && x.attempts == e.attempts + 1
      && x.state == (if IsPermanentError(error) || e.attempts + 1 >= 5 then DeliveryState.Failed else DeliveryState.Pending)
  {
  }

  /** The entry as an attempt leaves it, read off the platform's answers. */
  ghost predicate LeftBy(x: QueuedDelivery, e: QueuedDelivery, a: Attempt, chunk: Chunker) {
    && x.id == e.id && x.channel == e.channel && x.conversation == e.conversation && x.text == e.text
    && x.enqueuedAt == e.enqueuedAt
    && (a.channel.Available? && (forall n :: 0 <= n < |chunk(e)| ==> a.channel.reply(n).None?) ==>
          x == e.(state := DeliveryState.Sent, lastError := None))
    && (forall k: nat {:trigger a.channel.reply(k)} :: RefusedAt(e, a, chunk, k) ==>
          FailedWith(x, e, a, a.channel.reply(k).value))
    && (a.channel.Unavailable? ==> FailedWith(x, e, a, e.channel + " is not available: " + a.channel.reason))
  }

  ghost predicate FailedWith(x: QueuedDelivery, e: QueuedDelivery, a: Attempt, error: string) {
    && x.attempts == e.attempts + 1 && x.lastAttempt == Some(a.now) && x.lastError == Some(error)
    && x.state == (if IsPermanentError(error) || e.attempts + 1 >= 5 then DeliveryState.Failed else DeliveryState.Pending)
  }

  lemma AttemptLeaves(e: QueuedDelivery, a: Attempt, chunk: Chunker)
    requires e.state == DeliveryState.Pending
    ensures LeftBy(AfterAttempt(e, e, a, chunk), e, a, chunk)
  {
    forall k: nat | RefusedAt(e, a, chunk, k) ensures FailedWith(AfterAttempt(e, e, a, chunk), e, a, a.channel.reply(k).value) {
      FailureIsTheAnswer(e, a, chunk, k);
    }
  }

  /**
   * The whole of what a pass does to an entry, and what it reports for it. An
   * entry that is due is left as the answers to the attempt of its turn say, and
   * counted as sent, failed or retried by the state it is left in.
   */
  lemma DrainEntryExactly(q: Queue, now: int, world: nat -> Attempt, chunk: Chunker, j: nat)
    requires UniqueIds(q) && j < |q| && IsDue(q[j], now)
    ensures
      var p := Drain(q, now, world, chunk);
      var turn := Find(DueOf(q, now), q[j].id);
      && turn < |DueOf(q, now)| == |p.outcomes| && |p.queue| == |q|
      && LeftBy(p.queue[j], q[j], world(turn), chunk)
      && p.outcomes[turn] == (match p.queue[j].state
                              case Sent => DeliveryOutcome.Sent
                              case Failed => DeliveryOutcome.Failed
                              case Pending => DeliveryOutcome.Retried)
  {
    DrainEntry(q, now, world, chunk, j);
    DrainAccounting(q, now, world, chunk);
    DueIsExact(q, now);
    var due := DueOf(q, now);
    var turn := Find(due, q[j].id);
    assert due[turn] in due;
    assert q[j] == due[turn];
    AttemptLeaves(q[j], world(turn), chunk);
  }

  /** The pieces of an attempt: those before the first refused one, under the entry's id. */
  lemma AttemptOnTheWire(e: QueuedDelivery, a: Attempt, chunk: Chunker)
    ensures
      var n, wire := |PiecesOf(e, a, chunk)|, OnWire(e.id, PiecesOf(e, a, chunk));
      && |wire| == n <= |chunk(e)|
      && (forall m :: 0 <= m < n ==> wire[m] == Piece(e.id, chunk(e)[m]))
      && (a.channel.Unavailable? ==> n == 0)
      && (a.channel.Available? ==>
            && (forall m :: 0 <= m < n ==> a.channel.reply(m).None?)
            && (n < |chunk(e)| ==> a.channel.reply(n).Some?))
  {
  }

  /** What one turn of a pass puts on the wire: the entry's pieces up to the first the platform refuses. */
  lemma TurnOnTheWire(q: Queue, due: Queue, world: nat -> Attempt, chunk: Chunker, k: nat)
    requires k < |due|
    ensures
      var before, after := DrainTo(q, due, world, chunk, k).wire, DrainTo(q, due, world, chunk, k + 1).wire;
      var n := |after| - |before|;
      && before <= after
      && n <= |chunk(due[k])|
      && (forall m :: 0 <= m < n ==> after[|before| + m] == Piece(due[k].id, chunk(due[k])[m]))
      && (world(k).channel.Unavailable? ==> n == 0)
      && (world(k).channel.Available? ==>
            && (forall m :: 0 <= m < n ==> world(k).channel.reply(m).None?)
            && (n < |chunk(due[k])| ==> world(k).channel.reply(n).Some?))
  {
    DrainToNext(q, due, world, chunk, k);
    AttemptOnTheWire(due[k], world(k), chunk);
    var before, added := DrainTo(q, due, world, chunk, k).wire, OnWire(due[k].id, PiecesOf(due[k], world(k), chunk));
    assert DrainTo(q, due, world, chunk, k + 1).wire == before + added;
  }

  // ---------------------------------------------------------------- what the summary counts

  function StateUnit(state: DeliveryState): QueuedDelivery -> int {
    (e: QueuedDelivery) => if e.state == state then 1 else 0
  }

  /** Attempts so far have moved as many entries into `state` as they report. */
  ghost predicate Moved(q: Queue, p: Pass, state: DeliveryState, outcome: DeliveryOutcome) {
    Total(StateUnit(state), p.queue) == Total(StateUnit(state), q) + Count(outcome, p.outcomes)
  }

  lemma MovedStep(q: Queue, p: Pass, j: nat, a: Attempt, chunk: Chunker, state: DeliveryState, outcome: DeliveryOutcome)
    requires Moved(q, p, state, outcome) && UniqueIds(p.queue)
    requires j < |p.queue| && p.queue[j].state == DeliveryState.Pending
    requires (state, outcome) == (DeliveryState.Sent, DeliveryOutcome.Sent)
             || (state, outcome) == (DeliveryState.Failed, DeliveryOutcome.Failed)
    ensures Moved(q, Advance(p, p.queue[j], a, chunk), state, outcome)
  {
    var e := p.queue[j];
    AttemptStep(p.queue, j, a, chunk);
    TotalUpdate(StateUnit(state), p.queue, j, AfterAttempt(e, e, a, chunk));
    CountSnoc(p.outcomes, OutcomeOf(e, a, chunk));
  }

  lemma MovedTurn(q: Queue, due: Queue, world: nat -> Attempt, chunk: Chunker, p: Pass, k: nat,
                  state: DeliveryState, outcome: DeliveryOutcome)
    requires UniqueIds(q) && UniqueIds(due) && k < |due| && due[k] in q && due[k].state == DeliveryState.Pending
    requires Accounted(q, due, world, chunk, p, k) && Moved(q, p, state, outcome)
    requires (state, outcome) == (DeliveryState.Sent, DeliveryOutcome.Sent)
             || (state, outcome) == (DeliveryState.Failed, DeliveryOutcome.Failed)
    ensures Moved(q, Advance(p, due[k], world(k), chunk), state, outcome)
  {
    var j := PlaceOf(q, due[k]);
    AccountedStep(q, due, world, chunk, p, k, j);
    MovedStep(q, p, j, world(k), chunk, state, outcome);
  }

  lemma MovedNext(q: Queue, due: Queue, world: nat -> Attempt, chunk: Chunker, k: nat,
                  state: DeliveryState, outcome: DeliveryOutcome)
    requires UniqueIds(q) && PendingEntriesOf(due, q) && k < |due|
    requires Moved(q, DrainTo(q, due, world, chunk, k), state, outcome)
    requires (state, outcome) == (DeliveryState.Sent, DeliveryOutcome.Sent)
             || (state, outcome) == (DeliveryState.Failed, DeliveryOutcome.Failed)
    ensures Moved(q, DrainTo(q, due, world, chunk, k + 1), state, outcome)
  {
    AccountedPrefix(q, due, world, chunk, k);
    MovedTurn(q, due, world, chunk, DrainTo(q, due, world, chunk, k), k, state, outcome);
    DrainToNext(q, due, world, chunk, k);
  }

  lemma {:induction false} MovedPrefix(q: Queue, due: Queue, world: nat -> Attempt, chunk: Chunker, k: nat,
                                       state: DeliveryState, outcome: DeliveryOutcome)
    requires UniqueIds(q) && PendingEntriesOf(due, q) && k <= |due|
    requires (state, outcome) == (DeliveryState.Sent, DeliveryOutcome.Sent)
             || (state, outcome) == (DeliveryState.Failed, DeliveryOutcome.Failed)
    ensures Moved(q, DrainTo(q, due, world, chunk, k), state, outcome)
  {
    if k > 0 {
      MovedPrefix(q, due, world, chunk, k - 1, state, outcome);
      MovedNext(q, due, world, chunk, k - 1, state, outcome);
    }
  }

  lemma {:induction false} CountState(q: Queue, state: DeliveryState)
    ensures Total(StateUnit(state), q) == |set j | 0 <= j < |q| && q[j].state == state|
  {
    var here := set j | 0 <= j < |q| && q[j].state == state;
    assert q == [] ==> here == {};
    if q != [] {
      var front, last := q[..|q| - 1], q[|q| - 1];
      CountState(front, state);
      TotalConcat(StateUnit(state), front, [last]);
      assert q == front + [last];
      StatePositionsSnoc(front, last, state);
    }
  }

  lemma StatePositionsSnoc(q: Queue, e: QueuedDelivery, state: DeliveryState)
    ensures
      (set j | 0 <= j < |q + [e]| && (q + [e])[j].state == state) ==
      (set j | 0 <= j < |q| && q[j].state == state) + if e.state == state then {|q|} else {}
  {
  }

  /** What a pass reports is what it did: so many entries more are sent, so many more have failed, and the rest were retried. */
  lemma SummaryIsTrue(q: Queue, now: int, world: nat -> Attempt, chunk: Chunker)
    requires UniqueIds(q)
    ensures
      var p := Drain(q, now, world, chunk);
      var summary := Summary(p.outcomes);
      && |set j | 0 <= j < |p.queue| && p.queue[j].state == DeliveryState.Sent|
           == |set j | 0 <= j < |q| && q[j].state == DeliveryState.Sent| + summary.sent
      && |set j | 0 <= j < |p.queue| && p.queue[j].state == DeliveryState.Failed|
           == |set j | 0 <= j < |q| && q[j].state == DeliveryState.Failed| + summary.failed
      && summary.retried == |DueOf(q, now)| - summary.sent - summary.failed
      && summary.skipped == 0
  {
    var due := DueOf(q, now);
    DueEntries(q, now);
    DrainAccounting(q, now, world, chunk);
    MovedPrefix(q, due, world, chunk, |due|, DeliveryState.Sent, DeliveryOutcome.Sent);
    MovedPrefix(q, due, world, chunk, |due|, DeliveryState.Failed, DeliveryOutcome.Failed);
    var p := Drain(q, now, world, chunk);
    CountState(q, DeliveryState.Sent);
    CountState(q, DeliveryState.Failed);
    CountState(p.queue, DeliveryState.Sent);
    CountState(p.queue, DeliveryState.Failed);
  }

  /** Each attempt puts a prefix of its pieces on the wire, all of them exactly when it ends as sent. */
  lemma SentMeansAllPieces(q: Queue, e: QueuedDelivery, a: Attempt, chunk: Chunker)
    ensures PiecesOf(e, a, chunk) <= chunk(e)
    ensures OutcomeAfter(q, e, a, chunk) == DeliveryOutcome.Sent ==> PiecesOf(e, a, chunk) == chunk(e)
    ensures OutcomeAfter(q, e, a, chunk) != DeliveryOutcome.Sent && a.channel.Available? ==> |PiecesOf(e, a, chunk)| < |chunk(e)|
  {
  }

  /**
   * A message whose channel cannot be built keeps its place until attempts run
   * out exactly when the text that names the channel and the reason does not
   * read as permanent; a reason that does by itself ends it at the first attempt.
   */
  lemma UnavailableKeepsItsPlaceExactlyWhen(e: QueuedDelivery, a: Attempt, chunk: Chunker)
    requires e.state == DeliveryState.Pending && a.channel.Unavailable?
    ensures
      AfterAttempt(e, e, a, chunk).state == DeliveryState.Pending <==>
      e.attempts + 1 < 5 && !IsPermanentError(e.channel + " is not available: " + a.channel.reason)
    ensures IsPermanentError(a.channel.reason) ==> AfterAttempt(e, e, a, chunk).state == DeliveryState.Failed
  {
    if IsPermanentError(a.channel.reason) {
      var before := e.channel + " is not available: ";
      PermanentHoweverWrapped(before, a.channel.reason, "");
      assert before + a.channel.reason + "" == before + a.channel.reason;
    }
  }

  /** Why a channel nobody defines cannot be built. */
  function UnknownChannel(channel: string): Channel {
    Unavailable("unknown channel `" + channel + "`; run `future channel list`")
  }

  /** A message may be queued for any channel name; under this one it is given up at the first attempt. */
  lemma AnUnknownChannelCanReadAsPermanent(e: QueuedDelivery, a: Attempt, chunk: Chunker)
    requires e.state == DeliveryState.Pending && e.attempts == 0
    requires e.channel == "kicked" && a.channel == UnknownChannel(e.channel)
    ensures AfterAttempt(e, e, a, chunk).state == DeliveryState.Failed
  {
    assert Lowered("kicked") == "kicked";
    PatternIsPermanent("kicked", 7);
    PermanentHoweverWrapped("unknown channel `", "kicked", "`; run `future channel list`");
    assert "unknown channel `" + "kicked" + "`; run `future channel list`" == a.channel.reason;
    UnavailableKeepsItsPlaceExactlyWhen(e, a, chunk);
  }

  // ---------------------------------------------------------------- many passes

  datatype PassInput = PassInput(now: int, world: nat -> Attempt)

  /** Passes one after another; the number counts every attempt made. */
  ghost function RunPasses(q: Queue, passes: seq<PassInput>, chunk: Chunker): (Queue, nat)
    decreases |passes|
  {
    if passes == [] then (q, 0)
    else
      var p := Drain(q, passes[0].now, passes[0].world, chunk);
      var (end, more) := RunPasses(p.queue, passes[1..], chunk);
      (end, |p.outcomes| + more)
  }

  ghost predicate FinishedKept(q: Queue, r: Queue) {
    |r| == |q| && forall j :: 0 <= j < |q| && q[j].state != Pending ==> r[j] == q[j]
  }

  lemma FinishedUntouched(q: Queue, due: Queue, world: nat -> Attempt, chunk: Chunker, p: Pass)
    requires UniqueIds(q) && PendingEntriesOf(due, q)
    requires Accounted(q, due, world, chunk, p, |due|)
    ensures FinishedKept(q, p.queue)
  {
    forall j | 0 <= j < |q| && q[j].state != Pending ensures p.queue[j] == q[j] {
      var turn := Find(due, q[j].id);
      if turn < |due| {
        assert false;
      }
    }
  }

  lemma DrainKeepsShape(q: Queue, now: int, world: nat -> Attempt, chunk: Chunker)
    requires UniqueIds(q)
    ensures
      var p := Drain(q, now, world, chunk);
      && UniqueIds(p.queue)
      && FinishedKept(q, p.queue)
      && Total(Remaining, p.queue) + |p.outcomes| <= Total(Remaining, q)
  {
    var due := DueOf(q, now);
    DueEntries(q, now);
    DrainPrefix(q, due, world, chunk, |due|);
    var p := DrainTo(q, due, world, chunk, |due|);
    AccountedIds(q, due, world, chunk, p, |due|);
    FinishedUntouched(q, due, world, chunk, p);
  }

  /**
   * Retrying ends. However the platform behaves and however often the queue is
   * drained, the attempts made and the attempts left never exceed what was left
   * at the start, and a finished message is never touched again.
   */
  lemma {:induction false} RetriesAreBounded(q: Queue, passes: seq<PassInput>, chunk: Chunker)
    requires UniqueIds(q)
    ensures
      var (end, attempts) := RunPasses(q, passes, chunk);
      && attempts + Total(Remaining, end) <= Total(Remaining, q) <= 5 * |q|
      && attempts <= 5 * |q|
      && FinishedKept(q, end)
    decreases |passes|
  {
    TotalBounds(Remaining, q, 0, MAX_ATTEMPTS);
    if passes != [] {
      var p := Drain(q, passes[0].now, passes[0].world, chunk);
      DrainKeepsShape(q, passes[0].now, passes[0].world, chunk);
      RetriesAreBounded(p.queue, passes[1..], chunk);
    }
    var end := RunPasses(q, passes, chunk).0;
    forall e | e in end ensures 0 <= Remaining(e) {
    }
    TotalBounds(Remaining, end, 0, MAX_ATTEMPTS);
  }

  /** In how many of the passes an attempt is made for the entry at position `j`. */
  ghost function AttemptsOn(q: Queue, passes: seq<PassInput>, chunk: Chunker, j: nat): nat
    decreases |passes|
  {
    if passes == [] || j >= |q| then 0
    else
      (if IsDue(q[j], passes[0].now) then 1 else 0) +
      AttemptsOn(Drain(q, passes[0].now, passes[0].world, chunk).queue, passes[1..], chunk, j)
  }

  /** An attempt spends at least one of those its entry had left. */
  lemma DrainSpends(q: Queue, now: int, world: nat -> Attempt, chunk: Chunker, j: nat)
    requires UniqueIds(q) && j < |q|
    ensures
      var p := Drain(q, now, world, chunk);
      && |p.queue| == |q|
      && Remaining(p.queue[j]) + (if IsDue(q[j], now) then 1 else 0) <= Remaining(q[j])
  {
    DrainEntry(q, now, world, chunk, j);
    DrainAccounting(q, now, world, chunk);
    assert q[j] in q;
    if IsDue(q[j], now) {
      AttemptEffect(q[j], world(Find(DueOf(q, now), q[j].id)), chunk);
    }
  }

  /**
   * However the platform behaves, a message is attempted at most as often as
   * five leaves after the failures it had already, and once if it came
   * with that many or more.
   */
  lemma {:induction false} EachMessageIsBounded(q: Queue, passes: seq<PassInput>, chunk: Chunker, j: nat)
    requires UniqueIds(q) && j < |q|
    ensures
      var end := RunPasses(q, passes, chunk).0;
      && |end| == |q|
      && AttemptsOn(q, passes, chunk, j) + Remaining(end[j]) <= Remaining(q[j])
      && AttemptsOn(q, passes, chunk, j) <= (if q[j].attempts < 5 then 5 - q[j].attempts else 1)
    decreases |passes|
  {
    RetriesAreBounded(q, passes, chunk);
    assert q[j] in q;
    if passes != [] {
      var p := Drain(q, passes[0].now, passes[0].world, chunk);
      DrainSpends(q, passes[0].now, passes[0].world, chunk, j);
      DrainKeepsShape(q, passes[0].now, passes[0].world, chunk);
      EachMessageIsBounded(p.queue, passes[1..], chunk, j);
    }
    var end := RunPasses(q, passes, chunk).0;
    assert end[j] in end;
  }

  /** A pass keeps every message within five failures, if they all were. */
  lemma DrainKeepsBudget(q: Queue, now: int, world: nat -> Attempt, chunk: Chunker)
    requires UniqueIds(q) && AllWithinBudget(q)
    ensures AllWithinBudget(Drain(q, now, world, chunk).queue)
  {
    var p, due := Drain(q, now, world, chunk), DueOf(q, now);
    DrainAccounting(q, now, world, chunk);
    DueEntries(q, now);
    forall j | 0 <= j < |q| ensures WithinBudget(p.queue[j]) {
      assert q[j] in q;
      var turn := Find(due, q[j].id);
      if turn < |due| {
        DueEntry(q, due, turn, j);
        AttemptEffect(q[j], world(turn), chunk);
      }
    }
  }

  lemma DueEntry(q: Queue, due: Queue, turn: nat, j: nat)
    requires UniqueIds(q) && PendingEntriesOf(due, q) && turn < |due| && j < |q| && due[turn].id == q[j].id
    ensures q[j] == due[turn] && q[j].state == Pending
  {
  }

  /** Of messages that all had at most five failures, none ever records more. */
  lemma {:induction false} FailuresAreBounded(q: Queue, passes: seq<PassInput>, chunk: Chunker)
    requires UniqueIds(q) && AllWithinBudget(q)
    ensures AllWithinBudget(RunPasses(q, passes, chunk).0)
    ensures forall e :: e in RunPasses(q, passes, chunk).0 ==> e.attempts <= 5
    decreases |passes|
  {
    if passes != [] {
      var p := Drain(q, passes[0].now, passes[0].world, chunk);
      DrainKeepsBudget(q, passes[0].now, passes[0].world, chunk);
      DrainKeepsShape(q, passes[0].now, passes[0].world, chunk);
      FailuresAreBounded(p.queue, passes[1..], chunk);
    }
  }

  // ---------------------------------------------------------------- the object

  class Outbox {
    const queue: DeliveryQueue
    const chunk: Chunker
    /** Every piece a platform has accepted, in order. */
    var wire: seq<Piece>

    constructor (queue: DeliveryQueue, chunk: Chunker)
      ensures this.queue == queue && this.chunk == chunk && wire == []
    {
      this.queue, this.chunk, wire := queue, chunk, [];
    }

    method RecordAttemptFailure(e: QueuedDelivery, error: string, a: Attempt) returns (outcome: DeliveryOutcome)
      modifies queue`entries, queue`file, queue`temporary
      ensures queue.entries == RecordFailure(old(queue.entries), e.id, error, a.now)
      ensures outcome == OutcomeFor(FailureState(old(queue.entries), e.id, error, a.now))
    {
      var state := queue.MarkFailure(e.id, error, a.now, a.io);
      if state == DeliveryState.Failed {
        return DeliveryOutcome.Failed;
      } else {
        return DeliveryOutcome.Retried;
      }
    }

    method DeliverEntry(e: QueuedDelivery, reply: nat -> Option<string>, a: Attempt) returns (outcome: DeliveryOutcome)
      requires a.channel == Available(reply)
      modifies this`wire, queue`entries, queue`file, queue`temporary
      ensures queue.entries == QueueAfter(old(queue.entries), e, a, chunk)
      ensures outcome == OutcomeAfter(old(queue.entries), e, a, chunk)
      ensures wire == old(wire) + OnWire(e.id, PiecesOf(e, a, chunk))
    {
      var pieces := chunk(e);
      var failure: Option<string> := None;
      var i := 0;
      while i < |pieces|
        invariant 0 <= i <= |pieces|
        modifies this`wire
        invariant failure.None? && forall n :: 0 <= n < i ==> reply(n).None?
        invariant wire == old(wire) + OnWire(e.id, pieces[..i])
      {
        if reply(i).Some? {
          failure := reply(i);
          break;
        }
        wire := wire + [Piece(e.id, pieces[i])];
        i := i + 1;
      }
      assert i == Accepted(reply, |pieces|);
      match failure {
        case None =>
          var _ := queue.MarkSuccess(e.id, a.io);
          return DeliveryOutcome.Sent;
        case Some(error) =>
          outcome := RecordAttemptFailure(e, error, a);
      }
    }

    method AttemptDelivery(e: QueuedDelivery, a: Attempt) returns (outcome: DeliveryOutcome)
      modifies this`wire, queue`entries, queue`file, queue`temporary
      ensures queue.entries == QueueAfter(old(queue.entries), e, a, chunk)
      ensures outcome == OutcomeAfter(old(queue.entries), e, a, chunk)
      ensures wire == old(wire) + OnWire(e.id, PiecesOf(e, a, chunk))
    {
      match a.channel {
        case Unavailable(reason) =>
          outcome := RecordAttemptFailure(e, e.channel + " is not available: " + reason, a);
          assert OnWire(e.id, []) == [];
        case Available(reply) =>
          outcome := DeliverEntry(e, reply, a);
      }
    }

    /** One turn of the pass; `p` is the pass so far and `before` what was on the wire when it started. */
    method TakeTurn(e: QueuedDelivery, a: Attempt, sofar: DrainSummary, ghost p: Pass, ghost before: seq<Piece>)
      returns (summary: DrainSummary)
      requires queue.entries == p.queue && sofar == Summary(p.outcomes) && wire == before + p.wire
      modifies this`wire, queue`entries, queue`file, queue`temporary
      ensures queue.entries == Advance(p, e, a, chunk).queue
      ensures summary == Summary(Advance(p, e, a, chunk).outcomes)
      ensures wire == before + Advance(p, e, a, chunk).wire
    {
      AdvanceAddsUp(p, e, a, chunk, before);
      var outcome := AttemptDelivery(e, a);
      summary := Recorded(sofar, outcome);
    }

    /** One pass: an attempt for each entry that is due now. */
    method DrainDue(now: int, world: nat -> Attempt) returns (summary: DrainSummary)
      modifies this`wire, queue`entries, queue`file, queue`temporary
      ensures queue.entries == Drain(old(queue.entries), now, world, chunk).queue
      ensures summary == Summary(Drain(old(queue.entries), now, world, chunk).outcomes)
      ensures wire == old(wire) + Drain(old(queue.entries), now, world, chunk).wire
    {
      var due := queue.Due(now);
      summary := DrainAll(due, world);
    }

    /** The loop over the entries that were due when the pass started. */
    method DrainAll(due: Queue, world: nat -> Attempt) returns (summary: DrainSummary)
      modifies this`wire, queue`entries, queue`file, queue`temporary
      ensures
        var p := DrainTo(old(queue.entries), due, world, chunk, |due|);
        queue.entries == p.queue && summary == Summary(p.outcomes) && wire == old(wire) + p.wire
    {
      ghost var q := queue.entries;
      summary := DrainSummary(0, 0, 0, 0);
      ghost var p := Pass(q, [], []);
      for i := 0 to |due|
        invariant p == DrainTo(q, due, world, chunk, i)
        invariant queue.entries == p.queue
        invariant summary == Summary(p.outcomes)
        invariant wire == old(wire) + p.wire
      {
        summary := TakeTurn(due[i], world(i), summary, p, old(wire));
        DrainToNext(q, due, world, chunk, i);
        p := Advance(p, due[i], world(i), chunk);
      }
    }
  }
}
