/**
 * The bounded submission window (benchmark/fusion/baseline.py, `execute`).
 *
 * Work items are numbered in the order the iterator yields them. What the
 * threads do is not modelled: `order(n)` picks which of the items in flight the
 * n-th wait reports as completed, and `fails(i)` says whether item `i` raises,
 * itself or in the report written after it.
 */
module Scheduler {
  import opened Wrappers

  datatype Step = Submit(i: nat) | Finish(i: nat)

  function Submitted(trace: seq<Step>): seq<nat> {
    if trace == [] then []
    else
      var last := trace[|trace| - 1];
      Submitted(trace[..|trace| - 1]) + if last.Submit? then [last.i] else []
  }

  function Finished(trace: seq<Step>): seq<nat> {
    if trace == [] then []
    else
      var last := trace[|trace| - 1];
      Finished(trace[..|trace| - 1]) + if last.Finish? then [last.i] else []
  }

  function InFlight(trace: seq<Step>): int {
    |Submitted(trace)| - |Finished(trace)|
  }

  function Upto(n: nat): seq<nat> {
    seq(n, i => i)
  }

  /** A failure has been seen: some item of the trace finished by raising. */
  predicate Failed(trace: seq<Step>, fails: nat -> bool) {
    trace != [] &&
    var last := trace[|trace| - 1];
    Failed(trace[..|trace| - 1], fails) || (last.Finish? && fails(last.i))
  }

  /**
   * What may come next. An item is submitted in turn, into a free place of the
   * window, while no failure has been seen. An item finishes when it is in
   * flight; and until a failure is seen the loop only waits when the window is
   * full or the work has run out.
   */
  ghost predicate Admissible(sofar: seq<Step>, step: Step, n: nat, jobs: int, fails: nat -> bool) {
    match step
    case Submit(i) => InFlight(sofar) < jobs && i == |Submitted(sofar)| < n && !Failed(sofar, fails)
    case Finish(i) =>
      && multiset(Finished(sofar))[i] < multiset(Submitted(sofar))[i]
      && InFlight(sofar) > 0
      && (!Failed(sofar, fails) ==> InFlight(sofar) == jobs || |Submitted(sofar)| == n)
  }

  ghost predicate Disciplined(trace: seq<Step>, n: nat, jobs: int, fails: nat -> bool) {
    trace == [] || (
      var front := trace[..|trace| - 1];
      Disciplined(front, n, jobs, fails) && Admissible(front, trace[|trace| - 1], n, jobs, fails))
  }

  lemma Snoc(trace: seq<Step>, step: Step, fails: nat -> bool)
    ensures Submitted(trace + [step]) == Submitted(trace) + if step.Submit? then [step.i] else []
    ensures Finished(trace + [step]) == Finished(trace) + if step.Finish? then [step.i] else []
    ensures Failed(trace + [step], fails) <==> Failed(trace, fails) || (step.Finish? && fails(step.i))
  {
    assert (trace + [step])[..|trace|] == trace;
  }

  lemma DisciplineGrows(trace: seq<Step>, step: Step, n: nat, jobs: int, fails: nat -> bool)
    requires Disciplined(trace, n, jobs, fails) && Admissible(trace, step, n, jobs, fails)
    ensures Disciplined(trace + [step], n, jobs, fails)
  {
    assert (trace + [step])[..|trace|] == trace;
  }

  /** The window at the end of a run: bounded, and filled from the front of the work. */
  lemma {:induction false} WindowHolds(trace: seq<Step>, n: nat, jobs: int, fails: nat -> bool)
    requires jobs > 0 && Disciplined(trace, n, jobs, fails)
    ensures 0 <= InFlight(trace) <= jobs
    ensures |Submitted(trace)| <= n && Submitted(trace) == Upto(|Submitted(trace)|)
  {
    if trace != [] {
      WindowHolds(trace[..|trace| - 1], n, jobs, fails);
    }
  }

  lemma {:induction false} PrefixDisciplined(trace: seq<Step>, n: nat, jobs: int, fails: nat -> bool, k: nat)
    requires k <= |trace| && Disciplined(trace, n, jobs, fails)
    ensures Disciplined(trace[..k], n, jobs, fails)
    ensures k < |trace| ==> Admissible(trace[..k], trace[k], n, jobs, fails)
    ensures Failed(trace[..k], fails) ==> Failed(trace, fails)
  {
    if k == |trace| {
      assert trace[..k] == trace;
    } else {
      var front := trace[..|trace| - 1];
      assert k <= |front| && front[..k] == trace[..k];
      if k < |front| {
        assert front[k] == trace[k];
      }
      PrefixDisciplined(front, n, jobs, fails, k);
    }
  }

  /**
   * At every moment of a disciplined run no more than `jobs` items are in
   * flight, and the items submitted so far are the first ones, none of them twice.
   */
  lemma BoundedThroughout(trace: seq<Step>, n: nat, jobs: int, fails: nat -> bool, k: nat)
    requires jobs > 0 && Disciplined(trace, n, jobs, fails) && k <= |trace|
    ensures 0 <= InFlight(trace[..k]) <= jobs
    ensures Submitted(trace[..k]) == Upto(|Submitted(trace[..k])|) && |Submitted(trace[..k])| <= n
  {
    PrefixDisciplined(trace, n, jobs, fails, k);
    WindowHolds(trace[..k], n, jobs, fails);
  }

  /** Once a failure has been seen nothing is submitted any more. */
  lemma {:induction false} FailureCloses(trace: seq<Step>, n: nat, jobs: int, fails: nat -> bool, k: nat)
    requires Disciplined(trace, n, jobs, fails) && k <= |trace| && Failed(trace[..k], fails)
    ensures Submitted(trace) == Submitted(trace[..k])
  {
    if k == |trace| {
      assert trace[..k] == trace;
    } else {
      var front := trace[..|trace| - 1];
      assert front[..k] == trace[..k];
      PrefixDisciplined(front, n, jobs, fails, k);
      FailureCloses(front, n, jobs, fails, k);
    }
  }

  // ---------------------------------------------------------------- the run by positions

  /** The positions of the submissions, and of the completions. */
  ghost function SubmitsAt(trace: seq<Step>): set<int> {
    set k | 0 <= k < |trace| && trace[k].Submit?
  }

  ghost function FinishesAt(trace: seq<Step>): set<int> {
    set k | 0 <= k < |trace| && trace[k].Finish?
  }

  lemma PositionsGrow(trace: seq<Step>, step: Step)
    ensures SubmitsAt(trace + [step]) == SubmitsAt(trace) + (if step.Submit? then {|trace|} else {})
    ensures FinishesAt(trace + [step]) == FinishesAt(trace) + (if step.Finish? then {|trace|} else {})
  {
  }

  lemma {:induction false} CountedByPosition(trace: seq<Step>)
    ensures Counted(trace)
  {
    if trace == [] {
      assert SubmitsAt(trace) == {} && FinishesAt(trace) == {};
    } else {
      var front, last := trace[..|trace| - 1], trace[|trace| - 1];
      CountedByPosition(front);
      assert trace == front + [last];
      CountedOneMore(front, last);
    }
  }

  ghost predicate Counted(trace: seq<Step>) {
    && |Submitted(trace)| == |SubmitsAt(trace)| && |Finished(trace)| == |FinishesAt(trace)|
    && (forall i :: i in Submitted(trace) <==> Submit(i) in trace)
    && (forall i :: i in Finished(trace) <==> Finish(i) in trace)
  }

  lemma CountedOneMore(trace: seq<Step>, step: Step)
    requires Counted(trace)
    ensures Counted(trace + [step])
  {
    PositionsGrow(trace, step);
    Snoc(trace, step, i => false);
  }

  /** A failure was seen exactly when some step finishes an item that fails. */
  lemma {:induction false} FailedExactlyWhen(trace: seq<Step>, fails: nat -> bool)
    ensures Failed(trace, fails) <==> exists k :: 0 <= k < |trace| && trace[k].Finish? && fails(trace[k].i)
  {
    if trace != [] {
      var front := trace[..|trace| - 1];
      FailedExactlyWhen(front, fails);
      if k :| 0 <= k < |trace| && trace[k].Finish? && fails(trace[k].i) {
        assert k < |front| ==> front[k] == trace[k];
      }
    }
  }

  lemma {:induction false} SubmittedGrows(a: seq<Step>, b: seq<Step>)
    ensures Submitted(a + b) == Submitted(a) + Submitted(b) && Finished(a + b) == Finished(a) + Finished(b)
  {
    if b == [] {
      assert a + b == a;
    } else {
      assert (a + b)[..|a + b| - 1] == a + b[..|b| - 1];
      SubmittedGrows(a, b[..|b| - 1]);
    }
  }

  lemma NotTwice(trace: seq<Step>, n: nat, jobs: int, fails: nat -> bool, i: nat)
    requires jobs > 0 && Disciplined(trace, n, jobs, fails)
    requires multiset(Finished(trace))[i] < multiset(Submitted(trace))[i]
    ensures Submit(i) in trace && Finish(i) !in trace
  {
    WindowHolds(trace, n, jobs, fails);
    CountedByPosition(trace);
    UptoOnce(|Submitted(trace)|, i);
    assert multiset(Submitted(trace))[i] > 0;
    assert i in multiset(Submitted(trace));
    assert i !in multiset(Finished(trace));
  }

  lemma {:induction false} UptoOnce(n: nat, i: nat)
    ensures multiset(Upto(n))[i] <= 1
  {
    if n > 0 {
      UptoOnce(n - 1, i);
      assert Upto(n) == Upto(n - 1) + [n - 1];
      assert n - 1 !in Upto(n - 1);
    }
  }

  /**
   * Any step of a disciplined run, told by what stands before it. An item is
   * submitted when as many were submitted as its number says, fewer than `jobs`
   * of those have not finished, and none of the finished ones failed. An item
   * finishes that was submitted and has not finished; and while none failed, the
   * loop waits for it only with all `jobs` places taken or all the work handed
   * out.
   */
  lemma RunExactly(trace: seq<Step>, n: nat, jobs: int, fails: nat -> bool, k: nat)
    requires jobs > 0 && Disciplined(trace, n, jobs, fails) && k < |trace|
    ensures
      var before := trace[..k];
      var open := |SubmitsAt(before)| - |FinishesAt(before)|;
      var failed := exists j :: 0 <= j < |before| && before[j].Finish? && fails(before[j].i);
      && (trace[k].Submit? ==> trace[k].i == |SubmitsAt(before)| < n && open < jobs && !failed)
      && (trace[k].Finish? ==>
            && Submit(trace[k].i) in before && Finish(trace[k].i) !in before
            && (failed || open == jobs || |SubmitsAt(before)| == n))
  {
    var before := trace[..k];
    PrefixDisciplined(trace, n, jobs, fails, k);
    CountedByPosition(before);
    FailedExactlyWhen(before, fails);
    if trace[k].Finish? {
      NotTwice(before, n, jobs, fails, trace[k].i);
    }
  }

  // ---------------------------------------------------------------- the loop

  /** The loop's books: what is in flight is what was submitted and has not finished. */
  ghost predicate Books(trace: seq<Step>, pending: seq<nat>) {
    && multiset(pending) + multiset(Finished(trace)) == multiset(Submitted(trace))
    && |pending| == InFlight(trace)
  }

  lemma BooksAfterSubmit(trace: seq<Step>, pending: seq<nat>, item: nat, fails: nat -> bool)
    requires Books(trace, pending)
    ensures Books(trace + [Submit(item)], pending + [item])
  {
    Snoc(trace, Submit(item), fails);
  }

  method SubmitNext(trace: seq<Step>, pending: seq<nat>, next: nat, n: nat, ghost jobs: int, ghost fails: nat -> bool)
    returns (trace': seq<Step>, pending': seq<nat>, next': nat)
    requires Disciplined(trace, n, jobs, fails) && Books(trace, pending) && !Failed(trace, fails)
    requires next == |Submitted(trace)| && |pending| < jobs
    ensures Disciplined(trace', n, jobs, fails) && Books(trace', pending') && !Failed(trace', fails)
    ensures next' == |Submitted(trace')| && |Finished(trace')| == |Finished(trace)|
    ensures if next < n then next' == next + 1 && |pending'| == |pending| + 1 else next' == next && pending' == pending
  {
    if next >= n {
      return trace, pending, next;
    }
    trace', pending', next' := trace + [Submit(next)], pending + [next], next + 1;
    BooksAfterSubmit(trace, pending, next, fails);
    DisciplineGrows(trace, Submit(next), n, jobs, fails);
    Snoc(trace, Submit(next), fails);
  }

  lemma BooksAfterFinish(trace: seq<Step>, pending: seq<nat>, at: nat, fails: nat -> bool)
    requires Books(trace, pending) && at < |pending|
    ensures multiset(Finished(trace))[pending[at]] < multiset(Submitted(trace))[pending[at]]
    ensures Books(trace + [Finish(pending[at])], pending[..at] + pending[at + 1..])
  {
    var item, rest := pending[at], pending[..at] + pending[at + 1..];
    assert pending == pending[..at] + ([item] + pending[at + 1..]);
    assert multiset(pending) == multiset(rest) + multiset{item};
    Snoc(trace, Finish(item), fails);
  }

  method FinishOne(trace: seq<Step>, pending: seq<nat>, at: nat, n: nat, ghost jobs: int, ghost fails: nat -> bool)
    returns (trace': seq<Step>, pending': seq<nat>)
    requires Disciplined(trace, n, jobs, fails) && Books(trace, pending) && at < |pending|
    requires !Failed(trace, fails) ==> |pending| == jobs || |Submitted(trace)| == n
    ensures Disciplined(trace', n, jobs, fails) && Books(trace', pending')
    ensures Failed(trace', fails) <==> Failed(trace, fails) || fails(pending[at])
    ensures |Submitted(trace')| == |Submitted(trace)| && |Finished(trace')| == |Finished(trace)| + 1
    ensures |pending'| == |pending| - 1
  {
    var item := pending[at];
    trace', pending' := trace + [Finish(item)], pending[..at] + pending[at + 1..];
    BooksAfterFinish(trace, pending, at, fails);
    DisciplineGrows(trace, Finish(item), n, jobs, fails);
    Snoc(trace, Finish(item), fails);
  }

  /** Once everything submitted has finished, a failure was seen exactly when a submitted item fails. */
  lemma {:induction false} FailedIff(trace: seq<Step>, fails: nat -> bool)
    ensures Failed(trace, fails) <==> exists i :: i in Finished(trace) && fails(i)
  {
    if trace != [] {
      var front, last := trace[..|trace| - 1], trace[|trace| - 1];
      FailedIff(front, fails);
      if last.Finish? {
        assert Finished(trace) == Finished(front) + [last.i];
        assert last.i in Finished(trace);
      }
    }
  }

  /** The pool has shut down: nothing is in flight. The outcome follows from the items alone. */
  lemma OutcomeOfTheItems(trace: seq<Step>, n: nat, jobs: int, fails: nat -> bool)
    requires jobs > 0 && Disciplined(trace, n, jobs, fails)
    requires multiset(Finished(trace)) == multiset(Submitted(trace))
    requires !Failed(trace, fails) ==> |Submitted(trace)| == n
    ensures Failed(trace, fails) <==> exists i: nat :: i < n && fails(i)
    ensures !Failed(trace, fails) ==> Submitted(trace) == Upto(n)
  {
    var s, f := Submitted(trace), Finished(trace);
    WindowHolds(trace, n, jobs, fails);
    FailedIff(trace, fails);
    assert |s| == |multiset(s)| == |multiset(f)| == |f|;
    if Failed(trace, fails) {
      var i :| i in f && fails(i);
      assert i in multiset(s);
      assert i in s;
    }
    forall i: nat | i < |s| ensures i in f {
      assert s[i] == i;
      assert i in multiset(f);
    }
  }

  /** `for _ in range(jobs)`: fill the window. */
  method Fill(n: nat, jobs: int, ghost fails: nat -> bool) returns (trace: seq<Step>, pending: seq<nat>, next: nat)
    requires jobs > 0
    ensures Disciplined(trace, n, jobs, fails) && Books(trace, pending) && !Failed(trace, fails)
    ensures next == |Submitted(trace)| <= n && |pending| <= jobs && (|pending| == jobs || next == n)
  {
    trace, pending, next := [], [], 0;
    for k := 0 to jobs
      invariant Disciplined(trace, n, jobs, fails) && Books(trace, pending) && !Failed(trace, fails)
      invariant next == |Submitted(trace)| <= n && |pending| <= k && (|pending| == k || next == n)
    {
      trace, pending, next := SubmitNext(trace, pending, next, n, jobs, fails);
    }
  }

  /** Which of `len` items in flight the wait number `round` reports. */
  function Reported(order: nat -> nat, round: nat, len: nat): (at: nat)
    requires len > 0
    ensures at < len
  {
    order(round) % len
  }

  /** One turn of `while pending`: wait, look at the result, submit the next item unless it failed. */
  method Turn(trace: seq<Step>, pending: seq<nat>, next: nat, at: nat, n: nat, ghost jobs: int, fails: nat -> bool)
    returns (trace': seq<Step>, pending': seq<nat>, next': nat, failed: bool)
    requires Disciplined(trace, n, jobs, fails) && Books(trace, pending) && !Failed(trace, fails)
    requires next == |Submitted(trace)| <= n && at < |pending| <= jobs && (|pending| == jobs || next == n)
    ensures Disciplined(trace', n, jobs, fails) && Books(trace', pending') && failed == Failed(trace', fails)
    ensures next' == |Submitted(trace')| <= n && |Finished(trace')| == |Finished(trace)| + 1
    ensures |pending'| <= jobs && (!failed ==> |pending'| == jobs || next' == n)
  {
    var item := pending[at];
    trace', pending' := FinishOne(trace, pending, at, n, jobs, fails);
    next' := next;
    failed := fails(item);
    if !failed {
      trace', pending', next' := SubmitNext(trace', pending', next, n, jobs, fails);
    }
  }

  /** Leaving the pool waits for whatever was accepted. */
  method Shutdown(trace: seq<Step>, pending: seq<nat>, order: nat -> nat, round: nat, n: nat,
                  ghost jobs: int, ghost fails: nat -> bool)
    returns (trace': seq<Step>)
    requires Disciplined(trace, n, jobs, fails) && Books(trace, pending)
    requires pending != [] ==> Failed(trace, fails)
    ensures Disciplined(trace', n, jobs, fails) && Books(trace', [])
    ensures Failed(trace', fails) <==> Failed(trace, fails)
    ensures pending == [] ==> trace' == trace
  {
    trace' := trace;
    var left, rounds := pending, round;
    while left != []
      invariant Disciplined(trace', n, jobs, fails) && Books(trace', left)
      invariant left != [] ==> Failed(trace', fails)
      invariant Failed(trace', fails) <==> Failed(trace, fails)
      invariant pending == [] ==> left == [] && trace' == trace
      decreases |left|
    {
      trace', left := FinishOne(trace', left, Reported(order, rounds, |left|), n, jobs, fails);
      rounds := rounds + 1;
    }
  }

  /**
   * The whole run is disciplined, everything submitted finishes exactly once,
   * and the run fails exactly when some item does or the report written at the
   * end cannot be; when no item fails every one was done.
   */
  method Execute(n: nat, jobs: int, order: nat -> nat, fails: nat -> bool, lastReportFails: bool) returns (r: Result<()>, trace: seq<Step>)
    ensures jobs <= 0 ==> r.Failure? && trace == []
    ensures jobs > 0 ==> Disciplined(trace, n, jobs, fails)
    ensures multiset(Finished(trace)) == multiset(Submitted(trace))
    ensures jobs > 0 ==> (r.Failure? <==> lastReportFails || exists i: nat :: i < n && fails(i))
    ensures jobs > 0 && (forall i: nat :: i < n ==> !fails(i)) ==> Submitted(trace) == Upto(n)
  {
    if jobs <= 0 {
      return Failure("max_workers must be greater than 0"), [];
    }
    var pending: seq<nat>;
    var next: nat;
    trace, pending, next := Fill(n, jobs, fails);
    var rounds, failed := 0, false;
    while pending != [] && !failed
      invariant Disciplined(trace, n, jobs, fails) && Books(trace, pending)
      invariant failed == Failed(trace, fails)
      invariant next == |Submitted(trace)| <= n
      invariant |pending| <= jobs && (!failed ==> |pending| == jobs || next == n)
      decreases n - |Finished(trace)|
    {
      trace, pending, next, failed := Turn(trace, pending, next, Reported(order, rounds, |pending|), n, jobs, fails);
      rounds := rounds + 1;
    }
    trace := Shutdown(trace, pending, order, rounds, n, jobs, fails);
    assert multiset(Finished(trace)) == multiset(Submitted(trace));
    OutcomeOfTheItems(trace, n, jobs, fails);
    if failed {
      return Failure("an item failed"), trace;
    }
    r := if lastReportFails then Failure("cannot write the report") else Success(());
  }
}
