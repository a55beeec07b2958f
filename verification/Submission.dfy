/**
 * Submitting a benchmark case at most once, over crashes and resumes
 * (benchmark/fusion/future_runner.py `run_case`, benchmark/fusion/retry.py
 * `run_single`).
 *
 * Marker files are replaced atomically, so a marker is either absent or whole.
 * A script says how the outside world and the machine behave during one call;
 * `dies` names the durable effect just before which the process is killed.
 */
module Submission {
  import opened Wrappers

  /** An acknowledgement as the service sent it; a key it lacks is None. */
  datatype Ack = Ack(session: Option<string>, run: Option<string>)

  datatype CaseResult = CaseResult(completed: bool, httpStatus: Option<int>, session: Option<string>, run: Option<string>)

  /**
   * One attempt directory: its two markers, and how many times the run command
   * has been issued for it, which no file records.
   */
  datatype Attempt = Attempt(submissions: nat, ack: Option<Ack>, result: Option<CaseResult>)

  /** One terminal row of the run ledger; `bad` means its error text names HTTP 502. */
  datatype LedgerItem = LedgerItem(run: string, failed: bool, bad: bool)

  datatype Effect = MakeDirectory | Submit | WriteAck | WriteResult

  datatype Reply = Rejected | Unreported | Acknowledged(ack: Ack)

  datatype Script = Script(
    dies: Option<Effect>,
    sessionCreated: bool,
    reply: Reply,                       // Unreported: the service took the run but the call raised
    ackWritten: bool,
    unexpected: bool,                   // whatever fails raises an exception the handler does not catch
    completes: bool,
    ledger: Option<seq<LedgerItem>>,    // None: the ledger could not be fetched
    resultWritten: bool)

  datatype Outcome = Crashed | Raised | Returned(result: CaseResult)

  // ---------------------------------------------------------------- run_case

  function ErrorResult(session: Option<string>, run: Option<string>): CaseResult {
    CaseResult(false, None, session, run)
  }

  predicate Confirms(item: LedgerItem, run: string) {
    item.run == run && item.failed && item.bad
  }

  predicate Is502(ledger: seq<LedgerItem>, run: string) {
    exists i :: 0 <= i < |ledger| && Confirms(ledger[i], run)
  }

  predicate Complete(ack: Ack) {
    ack.session.Some? && ack.run.Some?
  }

  /** The run an acknowledgement pins: none when a key is missing. */
  function PinnedRun(ack: Ack): Option<string> {
    if Complete(ack) then ack.run else None
  }

  /** The ledger is asked only for a session and a run with a name. */
  predicate Asked(ack: Ack) {
    Complete(ack) && ack.session.value != "" && ack.run.value != ""
  }

  /** The result of a run that was acknowledged. A missing key is a caught error. */
  function ObservedResult(ack: Ack, s: Script): CaseResult {
    if !Complete(ack) then ErrorResult(None, None)
    else if s.unexpected then ErrorResult(ack.session, ack.run)
    else if s.completes then CaseResult(true, None, ack.session, ack.run)
    else
      var bad := Asked(ack) && s.ledger.Some? && Is502(s.ledger.value, ack.run.value);
      CaseResult(false, if bad then Some(502) else None, ack.session, ack.run)
  }

  predicate Raises(ack: Ack, s: Script) {
    Complete(ack) && s.unexpected
  }

  /** The `finally` block: the result is written whatever happened, and `raising` goes on. */
  function Finish(d: Attempt, r: CaseResult, raising: bool, s: Script): (Option<Attempt>, Outcome) {
    if s.dies == Some(WriteResult) then (Some(d), Crashed)
    else if !s.resultWritten then (Some(d), Raised)
    else (Some(d.(result := Some(r))), if raising then Raised else Returned(r))
  }

  function RunCase(dir: Option<Attempt>, resume: bool, s: Script): (Option<Attempt>, Outcome) {
    match dir
    case Some(d) =>
      if !resume then (dir, Raised)
      else if d.result.Some? then (dir, Returned(d.result.value))
      else if d.ack.None? then (dir, Raised)
      else Finish(d, ObservedResult(d.ack.value, s), Raises(d.ack.value, s), s)
    case None =>
      var d := Attempt(0, None, None);
      if s.dies == Some(MakeDirectory) then (None, Crashed)
      else if !s.sessionCreated then Finish(d, ErrorResult(None, None), s.unexpected, s)
      else if s.dies == Some(Submit) then (Some(d), Crashed)
      else
        match s.reply
        case Rejected => Finish(d, ErrorResult(None, None), s.unexpected, s)
        case Unreported => Finish(d.(submissions := 1), ErrorResult(None, None), s.unexpected, s)
        case Acknowledged(ack) =>
          var sent := d.(submissions := 1);
          if s.dies == Some(WriteAck) then (Some(sent), Crashed)
          else if !s.ackWritten then Finish(sent, ErrorResult(None, None), true, s)
          else Finish(sent.(ack := Some(ack)), ObservedResult(ack, s), Raises(ack, s), s)
  }

  // ---------------------------------------------------------------- run_single

  datatype Final = Final(attempt: nat, result: CaseResult)

  /** A case directory: whether it exists, its attempts by number, its top-level result. */
  datatype Case = Case(begun: bool, attempts: map<nat, Attempt>, final: Option<Final>)

  datatype Invocation = Invocation(
    retries: nat,
    resume: bool,
    scripts: nat -> Script,    // by attempt number
    diesFirst: bool,           // killed before the case directory exists
    diesLast: bool,            // killed before the top-level result is written
    finalWritten: bool)

  datatype Verdict = Killed | Errored | Done(final: Final)

  function DirOf(c: Case, n: nat): Option<Attempt> {
    if n in c.attempts then Some(c.attempts[n]) else None
  }

  function WithDir(c: Case, n: nat, d: Option<Attempt>): Case {
    if d.Some? then c.(attempts := c.attempts[n := d.value]) else c
  }

  predicate Retryable(r: CaseResult) {
    !r.completed && r.httpStatus == Some(502)
  }

  /** The attempt loop from attempt `n` on. */
  function Attempts(c: Case, inv: Invocation, n: nat): (Case, Verdict)
    decreases inv.retries + 1 - n, 1
  {
    var dir := DirOf(c, n);
    if dir.Some? && dir.value.result.None? && dir.value.ack.None? then (c, Errored)
    else
      var (after, outcome) := RunCase(dir, inv.resume && dir.Some?, inv.scripts(n));
      Proceed(WithDir(c, n, after), outcome, inv, n)
  }

  /** What follows attempt `n`: the next one, or the end. */
  function Proceed(c: Case, outcome: Outcome, inv: Invocation, n: nat): (Case, Verdict)
    decreases inv.retries + 1 - n, 0
  {
    match outcome
    case Crashed => (c, Killed)
    case Raised => (c, Errored)
    case Returned(r) =>
      if Retryable(r) && n <= inv.retries then Attempts(c, inv, n + 1)
      else if inv.diesLast then (c, Killed)
      else if !inv.finalWritten then (c, Errored)
      else (c.(final := Some(Final(n, r))), Done(Final(n, r)))
  }

  function RunSingle(c: Case, inv: Invocation): (Case, Verdict) {
    if c.final.Some? then (c, if inv.resume then Done(c.final.value) else Errored)
    else if c.begun && !inv.resume then (c, Errored)
    else if inv.diesFirst then (c, Killed)
    else Attempts(c.(begun := true), inv, 1)
  }

  /** Invocations one after another, each of which may be killed anywhere. */
  function Campaign(c: Case, invs: seq<Invocation>): Case
    decreases |invs|
  {
    if invs == [] then c else Campaign(RunSingle(c, invs[0]).0, invs[1..])
  }

  const UNTOUCHED := Case(false, map[], None)

  // ---------------------------------------------------------------- the invariant

  ghost predicate SoundAttempt(d: Attempt) {
    && d.submissions <= 1
    && (d.ack.Some? ==> d.submissions == 1)
    && (d.result.Some? ==> d.result.value.run == if d.ack.Some? then PinnedRun(d.ack.value) else None)
    && (d.result.Some? && d.result.value.httpStatus.Some? ==> d.result.value.run.Some?)
  }

  ghost predicate MayBeFollowed(c: Case, n: nat) {
    n in c.attempts && c.attempts[n].result.Some? && Retryable(c.attempts[n].result.value)
  }

  ghost predicate Rooted(c: Case, n: nat) {
    n > 1 ==> MayBeFollowed(c, n - 1)
  }

  ghost predicate Sound(c: Case, retries: nat) {
    && (!c.begun ==> c.attempts == map[] && c.final.None?)
    && (forall n :: n in c.attempts ==> 1 <= n <= retries + 1 && SoundAttempt(c.attempts[n]))
    && (forall n {:trigger Rooted(c, n)} :: n in c.attempts ==> Rooted(c, n))
    && (c.final.Some? ==>
          var f := c.final.value;
          f.attempt in c.attempts && c.attempts[f.attempt].result == Some(f.result))
  }

  /** What a later state may do to an attempt directory of an earlier one. */
  ghost predicate Continues(d: Attempt, later: Attempt) {
    && later.submissions == d.submissions
    && later.ack == d.ack
    && (d.result.Some? ==> later.result == d.result)
  }

  ghost predicate Extends(c: Case, later: Case) {
    && (c.begun ==> later.begun)
    && (forall n :: n in c.attempts ==> n in later.attempts && Continues(c.attempts[n], later.attempts[n]))
    && (c.final.Some? ==> later == c)
  }

  lemma RunCaseSound(dir: Option<Attempt>, resume: bool, s: Script)
    requires dir.Some? ==> SoundAttempt(dir.value)
    ensures
      var (after, outcome) := RunCase(dir, resume, s);
      && (dir.Some? ==> after.Some? && Continues(dir.value, after.value))
      && (after.Some? ==> SoundAttempt(after.value))
      && (outcome.Returned? ==> after.Some? && after.value.result == Some(outcome.result))
  {
  }

  lemma WithDirSound(c: Case, n: nat, after: Option<Attempt>, retries: nat)
    requires Sound(c, retries) && c.begun && c.final.None? && 1 <= n <= retries + 1
    requires Rooted(c, n)
    requires n in c.attempts ==> after.Some? && Continues(c.attempts[n], after.value)
    requires after.Some? ==> SoundAttempt(after.value)
    ensures Sound(WithDir(c, n, after), retries)
    ensures Extends(c, WithDir(c, n, after))
  {
    var r := WithDir(c, n, after);
    forall k | k in r.attempts ensures Rooted(r, k) {
      assert k != n ==> Rooted(c, k);
    }
  }

  lemma FinalSound(c: Case, f: Final, retries: nat)
    requires Sound(c, retries) && c.begun && c.final.None?
    requires f.attempt in c.attempts && c.attempts[f.attempt].result == Some(f.result)
    ensures Sound(c.(final := Some(f)), retries)
    ensures Extends(c, c.(final := Some(f)))
  {
    var r := c.(final := Some(f));
    forall k | k in r.attempts ensures Rooted(r, k) {
      assert Rooted(c, k);
    }
  }

  /** One turn of the attempt loop. */
  lemma TurnSound(c: Case, n: nat, resume: bool, script: Script, retries: nat)
    requires Sound(c, retries) && c.begun && c.final.None? && 1 <= n <= retries + 1 && Rooted(c, n)
    ensures
      var (after, outcome) := RunCase(DirOf(c, n), resume, script);
      var next := WithDir(c, n, after);
      && Sound(next, retries) && Extends(c, next) && next.begun && next.final.None?
      && (outcome.Returned? ==> n in next.attempts && next.attempts[n].result == Some(outcome.result))
      && (outcome.Returned? && Retryable(outcome.result) ==> Rooted(next, n + 1))
  {
    var (after, outcome) := RunCase(DirOf(c, n), resume, script);
    RunCaseSound(DirOf(c, n), resume, script);
    WithDirSound(c, n, after, retries);
  }

  lemma ExtendsTransitive(c: Case, next: Case, later: Case)
    requires Extends(c, next) && Extends(next, later) && c.final.None?
    ensures Extends(c, later)
  {
  }

  lemma {:induction false} AttemptsSound(c: Case, inv: Invocation, n: nat, retries: nat)
    requires Sound(c, retries) && c.begun && c.final.None? && inv.retries <= retries
    requires 1 <= n <= inv.retries + 1
    requires Rooted(c, n)
    ensures Sound(Attempts(c, inv, n).0, retries)
    ensures Extends(c, Attempts(c, inv, n).0)
    decreases inv.retries + 1 - n, 1
  {
    var dir := DirOf(c, n);
    if dir.Some? && dir.value.result.None? && dir.value.ack.None? {
    } else {
      var (after, outcome) := RunCase(dir, inv.resume && dir.Some?, inv.scripts(n));
      var next := WithDir(c, n, after);
      TurnSound(c, n, inv.resume && dir.Some?, inv.scripts(n), retries);
      ProceedSound(next, outcome, inv, n, retries);
      ExtendsTransitive(c, next, Proceed(next, outcome, inv, n).0);
    }
  }

  lemma {:induction false} ProceedSound(c: Case, outcome: Outcome, inv: Invocation, n: nat, retries: nat)
    requires Sound(c, retries) && c.begun && c.final.None? && inv.retries <= retries
    requires 1 <= n <= inv.retries + 1
    requires outcome.Returned? ==> n in c.attempts && c.attempts[n].result == Some(outcome.result)
    requires outcome.Returned? && Retryable(outcome.result) ==> Rooted(c, n + 1)
    ensures Sound(Proceed(c, outcome, inv, n).0, retries)
    ensures Extends(c, Proceed(c, outcome, inv, n).0)
    decreases inv.retries + 1 - n, 0
  {
    if outcome.Returned? {
      if Retryable(outcome.result) && n <= inv.retries {
        AttemptsSound(c, inv, n + 1, retries);
      } else {
        FinalSound(c, Final(n, outcome.result), retries);
      }
    }
  }

  lemma RunSingleSound(c: Case, inv: Invocation, retries: nat)
    requires Sound(c, retries) && inv.retries <= retries
    ensures Sound(RunSingle(c, inv).0, retries)
    ensures Extends(c, RunSingle(c, inv).0)
  {
    if c.final.None? && (!c.begun || inv.resume) && !inv.diesFirst {
      AttemptsSound(c.(begun := true), inv, 1, retries);
    }
  }

  ghost predicate WithinRetries(invs: seq<Invocation>, retries: nat) {
    forall i :: 0 <= i < |invs| ==> invs[i].retries <= retries
  }

  lemma {:induction false} CampaignSound(c: Case, invs: seq<Invocation>, retries: nat)
    requires Sound(c, retries) && WithinRetries(invs, retries)
    ensures Sound(Campaign(c, invs), retries)
    ensures Extends(c, Campaign(c, invs))
    decreases |invs|
  {
    if invs != [] {
      RunSingleSound(c, invs[0], retries);
      CampaignSound(RunSingle(c, invs[0]).0, invs[1..], retries);
    }
  }

  // ---------------------------------------------------------------- theorems

  /**
   * At most once. After any sequence of invocations, however each was killed:
   * no attempt directory has been submitted twice; attempts are numbered 1, 2,
   * ... without gaps and there are at most retries + 1 of them; each one but
   * the first follows an attempt whose result is on disk, not completed and
   * HTTP 502, for the very run its acknowledgement names.
   */
  lemma AtMostOneSubmission(invs: seq<Invocation>, retries: nat, n: nat)
    requires WithinRetries(invs, retries)
    ensures
      var c := Campaign(UNTOUCHED, invs);
      n in c.attempts ==>
        && 1 <= n <= retries + 1
        && c.attempts[n].submissions <= 1
        && (n > 1 ==>
              && n - 1 in c.attempts
              && var before := c.attempts[n - 1];
              && before.submissions == 1
              && before.ack.Some?
              && before.result.Some?
              && !before.result.value.completed
              && before.result.value.httpStatus == Some(502)
              && Complete(before.ack.value)
              && before.result.value.run == before.ack.value.run)
  {
    CampaignSound(UNTOUCHED, invs, retries);
    var c := Campaign(UNTOUCHED, invs);
    if n in c.attempts {
      assert Rooted(c, n);
    }
  }

  /** The total number of submissions a case can cost. */
  ghost function Submitted(c: Case, upTo: nat): nat {
    if upTo == 0 then 0
    else Submitted(c, upTo - 1) + (if upTo in c.attempts then c.attempts[upTo].submissions else 0)
  }

  lemma {:induction false} SubmissionsAreBounded(invs: seq<Invocation>, retries: nat, upTo: nat)
    requires WithinRetries(invs, retries)
    ensures Submitted(Campaign(UNTOUCHED, invs), upTo) <= Min(upTo, retries + 1)
  {
    if upTo > 0 {
      SubmissionsAreBounded(invs, retries, upTo - 1);
      AtMostOneSubmission(invs, retries, upTo);
    }
  }

  lemma {:induction false} CampaignAppends(c: Case, first: seq<Invocation>, rest: seq<Invocation>)
    ensures Campaign(c, first + rest) == Campaign(Campaign(c, first), rest)
    decreases |first|
  {
    if first == [] {
      assert first + rest == rest;
    } else {
      assert (first + rest)[1..] == first[1..] + rest;
      CampaignAppends(RunSingle(c, first[0]).0, first[1..], rest);
    }
  }

  /**
   * Pinned. What one campaign leaves on disk binds every continuation of it:
   * the acknowledgement of an attempt and the number of its submissions never
   * change again, its result never changes once written, any result written
   * later reports that same run, and a finished case is left exactly as it is.
   */
  lemma ResumesArePinned(first: seq<Invocation>, rest: seq<Invocation>, retries: nat, n: nat)
    requires WithinRetries(first, retries) && WithinRetries(rest, retries)
    ensures
      var c := Campaign(UNTOUCHED, first);
      var later := Campaign(UNTOUCHED, first + rest);
      && (c.final.Some? ==> later == c)
      && (n in c.attempts ==>
            && n in later.attempts
            && later.attempts[n].submissions == c.attempts[n].submissions
            && later.attempts[n].ack == c.attempts[n].ack
            && (c.attempts[n].result.Some? ==> later.attempts[n].result == c.attempts[n].result)
            && (c.attempts[n].ack.Some? && later.attempts[n].result.Some? ==>
                  later.attempts[n].result.value.run == PinnedRun(c.attempts[n].ack.value)))
  {
    CampaignAppends(UNTOUCHED, first, rest);
    CampaignSound(UNTOUCHED, first, retries);
    CampaignSound(Campaign(UNTOUCHED, first), rest, retries);
    CampaignSound(UNTOUCHED, first + rest, retries);
  }

  /** A retry is never started on less evidence than a ledger row for the acknowledged run. */
  lemma RetryNeedsEvidence(dir: Option<Attempt>, resume: bool, s: Script)
    requires dir.None? || dir.value.result.None?
    ensures
      var (after, outcome) := RunCase(dir, resume, s);
      outcome.Returned? ==>
        (Retryable(outcome.result) <==>
           && after.Some? && after.value.ack.Some? && Asked(after.value.ack.value) && !s.unexpected && !s.completes
           && s.ledger.Some? && Is502(s.ledger.value, after.value.ack.value.run.value))
  {
  }

  // ---------------------------------------------------------------- what a call reports and leaves behind

  /** A row of the run ledger that shows the failure of `run` with HTTP 502. */
  ghost predicate RowShows502(ledger: seq<LedgerItem>, run: string) {
    exists i :: 0 <= i < |ledger| && ledger[i].run == run && ledger[i].failed && ledger[i].bad
  }

  /**
   * What a call that returns reports. The run counts as completed exactly when
   * it was acknowledged with both ids, did complete and nothing unexpected came
   * up; session and run are those of the acknowledgement; the status is 502
   * exactly when such a run did not complete and the ledger shows it.
   */
  lemma ReturnedResult(dir: Option<Attempt>, resume: bool, s: Script)
    requires dir.None? || dir.value.result.None?
    ensures
      var (after, outcome) := RunCase(dir, resume, s);
      outcome.Returned? ==>
        && after.Some? && after.value.result == Some(outcome.result)
        && var r, ack := outcome.result, after.value.ack;
        var named := ack.Some? && ack.value.session.Some? && ack.value.run.Some?;
        && (r.completed <==> named && !s.unexpected && s.completes)
        && r.session == (if named then ack.value.session else None)
        && r.run == (if named then ack.value.run else None)
        && (r.httpStatus == Some(502) <==>
              && named && !s.unexpected && !s.completes
              && ack.value.session != Some("") && ack.value.run != Some("")
              && s.ledger.Some? && RowShows502(s.ledger.value, ack.value.run.value))
        && (r.httpStatus.None? || r.httpStatus == Some(502))
  {
    if dir.Some? && dir.value.ack.Some? && Complete(dir.value.ack.value) {
      LedgerRows(s, dir.value.ack.value.run.value);
    }
    if s.reply.Acknowledged? && Complete(s.reply.ack) {
      LedgerRows(s, s.reply.ack.run.value);
    }
  }

  lemma LedgerRows(s: Script, run: string)
    ensures s.ledger.Some? ==> (Is502(s.ledger.value, run) <==> RowShows502(s.ledger.value, run))
  {
    if s.ledger.Some? {
      var rows := s.ledger.value;
      assert forall i :: 0 <= i < |rows| ==> (Confirms(rows[i], run) <==> rows[i].run == run && rows[i].failed && rows[i].bad);
    }
  }

  /** A directory that exists is only worked on when resuming, without a result, and with an acknowledgement. */
  lemma ExistingDirectory(d: Attempt, resume: bool, s: Script)
    ensures
      var (after, outcome) := RunCase(Some(d), resume, s);
      && (!resume ==> after == Some(d) && outcome.Raised?)
      && (resume && d.result.Some? ==> after == Some(d) && outcome == Returned(d.result.value))
      && (resume && d.result.None? && d.ack.None? ==> after == Some(d) && outcome.Raised?)
      && (resume && d.result.None? && d.ack.Some? ==>
            && after.Some? && after.value.submissions == d.submissions && after.value.ack == d.ack
            && (outcome.Crashed? <==> s.dies == Some(WriteResult))
            && (after.value.result.Some? <==> s.dies != Some(WriteResult) && s.resultWritten)
            && (outcome.Returned? <==> after.value.result.Some? && !(s.unexpected && d.ack.value.session.Some? && d.ack.value.run.Some?)))
  {
  }

  /**
   * A new directory. It is submitted exactly once when the session could be
   * created, nothing killed the process before and the service took the run; the
   * acknowledgement is kept exactly when there was one and it could be written;
   * a result is written unless the process dies or the write fails, and the call
   * returns it unless it is raising something the handler does not catch, or the
   * acknowledgement could not be written.
   */
  lemma NewDirectory(s: Script)
    ensures
      var (after, outcome) := RunCase(None, false, s);
      && (after.None? <==> s.dies == Some(MakeDirectory))
      && (after.Some? ==>
            var submitted := s.sessionCreated && s.dies != Some(Submit) && !s.reply.Rejected?;
            && after.value.submissions == (if submitted then 1 else 0)
            && after.value.ack == (if submitted && s.reply.Acknowledged? && s.dies != Some(WriteAck) && s.ackWritten
                                   then Some(s.reply.ack) else None)
            && (after.value.result.Some? <==> !outcome.Crashed? && s.resultWritten))
      && (outcome.Crashed? <==>
            || s.dies == Some(MakeDirectory)
            || (s.dies == Some(Submit) && s.sessionCreated)
            || (s.dies == Some(WriteAck) && s.sessionCreated && s.reply.Acknowledged?)
            || s.dies == Some(WriteResult))
      && (outcome.Returned? <==>
            && !outcome.Crashed? && s.resultWritten
            && if s.sessionCreated && s.reply.Acknowledged?
               then s.ackWritten && !(s.unexpected && s.reply.ack.session.Some? && s.reply.ack.run.Some?)
               else !s.unexpected)
  {
  }

  // ---------------------------------------------------------------- when a case is concluded

  /** The script of an attempt that is acknowledged and watched to its end. */
  ghost predicate Watched(s: Script) {
    && s.dies.None? && s.sessionCreated && s.reply.Acknowledged? && s.ackWritten && s.resultWritten && !s.unexpected
    && s.reply.ack.session.Some? && s.reply.ack.run.Some?
  }

  ghost predicate EndsIn502(s: Script) {
    && Watched(s) && !s.completes
    && s.reply.ack.session != Some("") && s.reply.ack.run != Some("")
    && s.ledger.Some? && RowShows502(s.ledger.value, s.reply.ack.run.value)
  }

  /** The script of an attempt whose call returns a result, good or bad. */
  ghost predicate Returns(s: Script) {
    && s.resultWritten && s.dies != Some(MakeDirectory) && s.dies != Some(WriteResult)
    && (s.sessionCreated ==> s.dies != Some(Submit))
    && if s.sessionCreated && s.reply.Acknowledged? then
         && s.dies != Some(WriteAck) && s.ackWritten
         && !(s.unexpected && s.reply.ack.session.Some? && s.reply.ack.run.Some?)
       else !s.unexpected
  }

  /** The script of an attempt in which the process is killed. */
  ghost predicate Crashes(s: Script) {
    || s.dies == Some(MakeDirectory) || s.dies == Some(WriteResult)
    || (s.sessionCreated && s.dies == Some(Submit))
    || (s.sessionCreated && s.reply.Acknowledged? && s.dies == Some(WriteAck))
  }

  lemma FreshAttempt(s: Script)
    ensures
      var outcome := RunCase(None, false, s).1;
      && (outcome.Returned? <==> Returns(s))
      && (outcome.Crashed? <==> Crashes(s))
      && (outcome.Returned? && outcome.result.completed <==> Watched(s) && s.completes)
      && (outcome.Returned? && !outcome.result.completed && outcome.result.httpStatus == Some(502) <==> EndsIn502(s))
      && (Watched(s) && s.completes ==>
            outcome.result == CaseResult(true, None, s.reply.ack.session, s.reply.ack.run))
  {
    ReturnedResult(None, false, s);
    NewDirectory(s);
    assert s.dies.None? || s.dies.value in {MakeDirectory, Submit, WriteAck, WriteResult} by {
      if s.dies.Some? {
        var e := s.dies.value;
        assert e.MakeDirectory? || e.Submit? || e.WriteAck? || e.WriteResult?;
      }
    }
  }

  /** The loop concludes with the result of attempt `m`. */
  ghost predicate ConcludesAt(v: Verdict, m: nat) {
    v.Done? && v.final.attempt == m
  }

  lemma {:induction false} FreshAttempts(c: Case, inv: Invocation, n: nat, m: nat)
    requires 1 <= n <= inv.retries + 1 && forall k :: k in c.attempts ==> k < n
    ensures ConcludesAt(Attempts(c, inv, n).1, m) <==>
              && !inv.diesLast && inv.finalWritten
              && n <= m <= inv.retries + 1
              && (forall k: nat :: n <= k < m ==> EndsIn502(inv.scripts(k)))
              && Returns(inv.scripts(m)) && (EndsIn502(inv.scripts(m)) ==> m == inv.retries + 1)
    ensures ConcludesAt(Attempts(c, inv, n).1, m) ==>
              var result, script := Attempts(c, inv, n).1.final.result, inv.scripts(m);
              && (result.completed <==> Watched(script) && script.completes)
              && (result.completed ==> result == CaseResult(true, None, script.reply.ack.session, script.reply.ack.run))
              && (Retryable(result) <==> EndsIn502(script))
    decreases inv.retries + 1 - n
  {
    FreshAttempt(inv.scripts(n));
    var (after, outcome) := RunCase(None, false, inv.scripts(n));
    var next := WithDir(c, n, after);
    assert Attempts(c, inv, n) == Proceed(next, outcome, inv, n);
    if EndsIn502(inv.scripts(n)) && n <= inv.retries {
      FreshAttempts(next, inv, n + 1, m);
    }
  }

  /**
   * When a case run for the first time is concluded with attempt `m`, and with
   * what: exactly when every attempt before it was watched to an end in HTTP 502,
   * attempt `m` returned something else or was the last one allowed, and nothing
   * kept the case from being begun and concluded. The result is a completed one
   * exactly when attempt `m` was watched to its completion.
   */
  lemma ConcludesExactlyWhen(inv: Invocation, m: nat)
    ensures
      var v := RunSingle(UNTOUCHED, inv).1;
      && (v.Done? && v.final.attempt == m <==>
            && !inv.diesFirst && !inv.diesLast && inv.finalWritten
            && 1 <= m <= inv.retries + 1
            && (forall k: nat :: 1 <= k < m ==> EndsIn502(inv.scripts(k)))
            && Returns(inv.scripts(m)) && (EndsIn502(inv.scripts(m)) ==> m == inv.retries + 1))
      && (v.Done? && v.final.attempt == m ==>
            var result, script := v.final.result, inv.scripts(m);
            && (result.completed <==> Watched(script) && script.completes)
            && (result.completed ==> result == CaseResult(true, None, script.reply.ack.session, script.reply.ack.run))
            && (!result.completed && result.httpStatus == Some(502) <==> EndsIn502(script)))
  {
    FreshAttempts(UNTOUCHED.(begun := true), inv, 1, m);
    assert RunSingle(UNTOUCHED, inv).1.Done? && RunSingle(UNTOUCHED, inv).1.final.attempt == m <==>
             !inv.diesFirst && ConcludesAt(Attempts(UNTOUCHED.(begun := true), inv, 1).1, m);
  }

  /** The invocation that begins with attempt `n` is killed at attempt `m`, or at the end of the case that it concludes there. */
  ghost predicate KilledAt(inv: Invocation, n: nat, m: nat) {
    && n <= m <= inv.retries + 1
    && (forall k: nat :: n <= k < m ==> EndsIn502(inv.scripts(k)))
    && (|| Crashes(inv.scripts(m))
        || (inv.diesLast && Returns(inv.scripts(m)) && (EndsIn502(inv.scripts(m)) ==> m == inv.retries + 1)))
  }

  lemma KilledLater(inv: Invocation, n: nat, next: nat)
    requires EndsIn502(inv.scripts(n)) && n <= inv.retries && next == n + 1
    ensures (exists m: nat :: KilledAt(inv, n, m)) <==> exists m: nat :: KilledAt(inv, next, m)
  {
    if m: nat :| KilledAt(inv, n, m) {
      assert m > n;
      assert KilledAt(inv, next, m);
    }
    if m: nat :| KilledAt(inv, next, m) {
      assert KilledAt(inv, n, m);
    }
  }

  lemma {:induction false} FreshKills(c: Case, inv: Invocation, n: nat)
    requires 1 <= n <= inv.retries + 1 && forall k :: k in c.attempts ==> k < n
    ensures Attempts(c, inv, n).1.Killed? <==> exists m: nat :: KilledAt(inv, n, m)
    decreases inv.retries + 1 - n
  {
    FreshAttempt(inv.scripts(n));
    var (after, outcome) := RunCase(None, false, inv.scripts(n));
    var next := WithDir(c, n, after);
    assert Attempts(c, inv, n) == Proceed(next, outcome, inv, n);
    if EndsIn502(inv.scripts(n)) && n <= inv.retries {
      FreshKills(next, inv, n + 1);
      KilledLater(inv, n, n + 1);
    } else {
      assert forall m: nat :: KilledAt(inv, n, m) ==> m == n;
      assert KilledAt(inv, n, n) <==> Attempts(c, inv, n).1.Killed?;
    }
  }

  /** When a case run for the first time ends with the process killed. */
  lemma KilledExactlyWhen(inv: Invocation)
    ensures RunSingle(UNTOUCHED, inv).1.Killed? <==> inv.diesFirst || exists m: nat :: KilledAt(inv, 1, m)
  {
    FreshKills(UNTOUCHED.(begun := true), inv, 1);
  }

  lemma {:induction false} DoneAttempts(c: Case, inv: Invocation, n: nat)
    requires c.final.None? && 1 <= n <= inv.retries + 1
    ensures
      var (later, v) := Attempts(c, inv, n);
      && (v.Done? ==>
            && later.final == Some(v.final) && n <= v.final.attempt <= inv.retries + 1
            && v.final.attempt in later.attempts && later.attempts[v.final.attempt].result == Some(v.final.result)
            && (!v.final.result.completed && v.final.result.httpStatus == Some(502) ==> v.final.attempt == inv.retries + 1))
      && (!v.Done? ==> later.final.None?)
    decreases inv.retries + 1 - n
  {
    var dir := DirOf(c, n);
    if dir.Some? && dir.value.result.None? && dir.value.ack.None? {
    } else {
      var (after, outcome) := RunCase(dir, inv.resume && dir.Some?, inv.scripts(n));
      var next := WithDir(c, n, after);
      if outcome.Returned? {
        ReturnedIsStored(dir, inv.resume && dir.Some?, inv.scripts(n));
        if Retryable(outcome.result) && n <= inv.retries {
          DoneAttempts(next, inv, n + 1);
        }
      }
    }
  }

  lemma ReturnedIsStored(dir: Option<Attempt>, resume: bool, s: Script)
    ensures
      var (after, outcome) := RunCase(dir, resume, s);
      outcome.Returned? ==> after.Some? && after.value.result == Some(outcome.result)
  {
  }

  /**
   * How an invocation ends. A concluded case is only repeated, and only when
   * resuming; a begun one is refused otherwise. An invocation that concludes a
   * case writes down the result of an attempt on disk, and one that asks for a
   * retry only when none is left.
   */
  lemma DoneMeansConcluded(c: Case, inv: Invocation)
    ensures
      var (later, v) := RunSingle(c, inv);
      && (c.final.Some? ==> later == c && v == if inv.resume then Done(c.final.value) else Errored)
      && (c.final.None? && c.begun && !inv.resume ==> later == c && v == Errored)
      && (c.final.None? && v.Done? ==>
            && later.final == Some(v.final) && 1 <= v.final.attempt <= inv.retries + 1
            && v.final.attempt in later.attempts && later.attempts[v.final.attempt].result == Some(v.final.result)
            && (!v.final.result.completed && v.final.result.httpStatus == Some(502) ==> v.final.attempt == inv.retries + 1))
      && (c.final.None? && !v.Done? ==> later.final.None?)
  {
    if c.final.None? && (!c.begun || inv.resume) && !inv.diesFirst {
      DoneAttempts(c.(begun := true), inv, 1);
    }
  }

  /** An attempt directory with neither marker, which every later invocation must refuse. */
  ghost predicate Interrupted(c: Case, n: nat) {
    && c.begun && c.final.None?
    && n in c.attempts && c.attempts[n].ack.None? && c.attempts[n].result.None?
  }

  /** What an invocation may still do to a case interrupted at attempt `n`: name an earlier attempt's result as the final one. */
  ghost predicate OnlyConcludes(c: Case, later: Case, n: nat) {
    || later == c
    || exists k, r :: 1 <= k < n && later == c.(final := Some(Final(k, r)))
  }

  lemma {:induction false} InterruptedAttempts(c: Case, inv: Invocation, k: nat, n: nat, retries: nat)
    requires Sound(c, retries) && Interrupted(c, n) && inv.resume
    requires 1 <= k <= n && k <= inv.retries + 1
    ensures OnlyConcludes(c, Attempts(c, inv, k).0, n)
    ensures n <= inv.retries + 1 ==> Attempts(c, inv, k) == (c, Errored)
    decreases n - k
  {
    if k < n {
      EarlierMayBeFollowed(c, retries, k, n);
      var r := c.attempts[k].result.value;
      assert RunCase(DirOf(c, k), true, inv.scripts(k)) == (Some(c.attempts[k]), Returned(r));
      assert c.attempts[k := c.attempts[k]] == c.attempts;
      assert WithDir(c, k, Some(c.attempts[k])) == c;
      if k <= inv.retries {
        InterruptedAttempts(c, inv, k + 1, n, retries);
      } else {
        assert c.(final := Some(Final(k, r))) == Attempts(c, inv, k).0 || Attempts(c, inv, k).0 == c;
      }
    }
  }

  lemma {:induction false} EarlierMayBeFollowed(c: Case, retries: nat, k: nat, n: nat)
    requires Sound(c, retries) && n in c.attempts && 1 <= k < n
    ensures MayBeFollowed(c, k)
    decreases n
  {
    assert Rooted(c, n);
    if k < n - 1 {
      EarlierMayBeFollowed(c, retries, k, n - 1);
    }
  }

  lemma InterruptedSingle(c: Case, inv: Invocation, retries: nat, n: nat)
    requires Sound(c, retries) && Interrupted(c, n)
    ensures OnlyConcludes(c, RunSingle(c, inv).0, n)
    ensures n <= inv.retries + 1 ==> RunSingle(c, inv).0 == c && !RunSingle(c, inv).1.Done?
  {
    if inv.resume && !inv.diesFirst {
      assert c.(begun := true) == c;
      InterruptedAttempts(c, inv, 1, n, retries);
    }
  }

  lemma {:induction false} FinalStays(c: Case, invs: seq<Invocation>)
    requires c.final.Some?
    ensures Campaign(c, invs) == c
    decreases |invs|
  {
    if invs != [] {
      FinalStays(c, invs[1..]);
    }
  }

  /**
   * Never resubmit. Once an attempt is left without an acknowledgement and
   * without a result, no later invocation, with however many retries, touches
   * or adds an attempt. One whose retries reach that attempt is refused and
   * leaves the case exactly as it found it; one that stops short of it can only
   * conclude the case with an earlier attempt's result.
   */
  lemma {:induction false} InterruptedStays(c: Case, invs: seq<Invocation>, retries: nat, n: nat)
    requires Sound(c, retries) && Interrupted(c, n)
    ensures Campaign(c, invs).attempts == c.attempts
    ensures OnlyConcludes(c, Campaign(c, invs), n)
    ensures (forall i :: 0 <= i < |invs| ==> n <= invs[i].retries + 1) ==> Campaign(c, invs) == c
    ensures invs != [] && n <= invs[0].retries + 1 ==> !RunSingle(c, invs[0]).1.Done?
    decreases |invs|
  {
    if invs != [] {
      InterruptedSingle(c, invs[0], retries, n);
      if RunSingle(c, invs[0]).0 == c {
        InterruptedStays(c, invs[1..], retries, n);
      } else {
        FinalStays(RunSingle(c, invs[0]).0, invs[1..]);
      }
    }
  }

  // ---------------------------------------------------------------- the object

  class Runner {
    /** The case directory on disk; it outlives every process. */
    var onDisk: Case

    constructor ()
      ensures onDisk == UNTOUCHED
    {
      onDisk := UNTOUCHED;
    }

    /** The scan of the failure ledger. */
    method Classify(ledger: seq<LedgerItem>, run: string) returns (httpStatus: Option<int>)
      ensures httpStatus == if Is502(ledger, run) then Some(502) else None
    {
      httpStatus := None;
      for i := 0 to |ledger|
        invariant httpStatus == if exists k :: 0 <= k < i && Confirms(ledger[k], run) then Some(502) else None
      {
        if ledger[i].run == run && ledger[i].failed && ledger[i].bad {
          assert Confirms(ledger[i], run);
          httpStatus := Some(502);
        }
      }
    }

    /** `base` is the case as it was before this attempt was touched. */
    method StoreAttempt(n: nat, d: Attempt, ghost base: Case)
      requires onDisk == base || exists was :: onDisk == WithDir(base, n, Some(was))
      modifies this
      ensures onDisk == WithDir(base, n, Some(d))
    {
      onDisk := onDisk.(attempts := onDisk.attempts[n := d]);
    }

    /** The `finally` block. */
    method FinishCase(n: nat, d: Attempt, result: CaseResult, raising: bool, s: Script, ghost base: Case)
      returns (outcome: Outcome)
      requires onDisk == WithDir(base, n, Some(d))
      modifies this
      ensures
        var (after, expected) := Finish(d, result, raising, s);
        onDisk == WithDir(base, n, after) && outcome == expected
    {
      if s.dies == Some(WriteResult) {
        return Crashed;
      }
      if !s.resultWritten {
        return Raised;
      }
      StoreAttempt(n, d.(result := Some(result)), base);
      if raising {
        return Raised;
      }
      return Returned(result);
    }

    /** Wait for an acknowledged run and write down what came of it. */
    method Observe(n: nat, d: Attempt, ack: Ack, s: Script, ghost base: Case) returns (outcome: Outcome)
      requires onDisk == WithDir(base, n, Some(d))
      modifies this
      ensures
        var (after, expected) := Finish(d, ObservedResult(ack, s), Raises(ack, s), s);
        onDisk == WithDir(base, n, after) && outcome == expected
    {
      if ack.session.None? || ack.run.None? {
        outcome := FinishCase(n, d, ErrorResult(None, None), false, s, base);
        return;
      }
      var result := ErrorResult(ack.session, ack.run);
      if !s.unexpected {
        if s.completes {
          result := result.(completed := true);
        } else if ack.session.value != "" && ack.run.value != "" && s.ledger.Some? {
          var status := Classify(s.ledger.value, ack.run.value);
          result := result.(httpStatus := status);
        }
      }
      outcome := FinishCase(n, d, result, s.unexpected, s, base);
    }

    /** The path of a directory that does not exist yet. */
    method SubmitCase(n: nat, s: Script) returns (outcome: Outcome)
      requires n !in onDisk.attempts
      modifies this
      ensures
        var (after, expected) := RunCase(None, false, s);
        onDisk == WithDir(old(onDisk), n, after) && outcome == expected
    {
      ghost var base := onDisk;
      if s.dies == Some(MakeDirectory) {
        return Crashed;
      }
      var d := Attempt(0, None, None);
      StoreAttempt(n, d, base);
      if !s.sessionCreated {
        outcome := FinishCase(n, d, ErrorResult(None, None), s.unexpected, s, base);
        return;
      }
      if s.dies == Some(Submit) {
        return Crashed;
      }
      if s.reply.Rejected? {
        outcome := FinishCase(n, d, ErrorResult(None, None), s.unexpected, s, base);
        return;
      }
      d := d.(submissions := d.submissions + 1);
      StoreAttempt(n, d, base);
      if s.reply.Unreported? {
        outcome := FinishCase(n, d, ErrorResult(None, None), s.unexpected, s, base);
        return;
      }
      if s.dies == Some(WriteAck) {
        return Crashed;
      }
      if !s.ackWritten {
        outcome := FinishCase(n, d, ErrorResult(None, None), true, s, base);
        return;
      }
      d := d.(ack := Some(s.reply.ack));
      StoreAttempt(n, d, base);
      outcome := Observe(n, d, s.reply.ack, s, base);
    }

    method RunCaseAt(n: nat, resume: bool, s: Script) returns (outcome: Outcome)
      modifies this
      ensures
        var (after, expected) := RunCase(DirOf(old(onDisk), n), resume, s);
        onDisk == WithDir(old(onDisk), n, after) && outcome == expected
    {
      if n !in onDisk.attempts {
        outcome := SubmitCase(n, s);
        return;
      }
      var d := onDisk.attempts[n];
      assert onDisk.attempts[n := d] == onDisk.attempts;
      if !resume {
        return Raised;
      }
      if d.result.Some? {
        return Returned(d.result.value);
      }
      if d.ack.None? {
        return Raised;
      }
      outcome := Observe(n, d, d.ack.value, s, onDisk);
    }

    method RunSingleOnce(inv: Invocation) returns (verdict: Verdict)
      modifies this
      ensures (onDisk, verdict) == RunSingle(old(onDisk), inv)
    {
      if onDisk.final.Some? {
        if !inv.resume {
          return Errored;
        }
        return Done(onDisk.final.value);
      }
      if onDisk.begun && !inv.resume {
        return Errored;
      }
      if inv.diesFirst {
        return Killed;
      }
      onDisk := onDisk.(begun := true);
      var attempt := 1;
      while true
        invariant 1 <= attempt <= inv.retries + 1
        invariant Attempts(onDisk, inv, attempt) == RunSingle(old(onDisk), inv)
        decreases inv.retries + 1 - attempt
      {
        if attempt in onDisk.attempts && onDisk.attempts[attempt].result.None? && onDisk.attempts[attempt].ack.None? {
          return Errored;
        }
        var outcome := RunCaseAt(attempt, inv.resume && attempt in onDisk.attempts, inv.scripts(attempt));
        if outcome.Crashed? {
          return Killed;
        }
        if outcome.Raised? {
          return Errored;
        }
        if Retryable(outcome.result) && attempt <= inv.retries {
          attempt := attempt + 1;
          continue;
        }
        if inv.diesLast {
          return Killed;
        }
        if !inv.finalWritten {
          return Errored;
        }
        onDisk := onDisk.(final := Some(Final(attempt, outcome.result)));
        return Done(Final(attempt, outcome.result));
      }
    }
  }
}
