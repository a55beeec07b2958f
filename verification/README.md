# Verified model of the channel, benchmark and fusion state machines

This project models, in Dafny, the parts of the repository that keep state over
crashes, threads and retries or that transform data under a contract somebody
else relies on, and proves what they promise:

- the durable outbound queue of the channel bridge and the loop that drains it;
- the save protocol shared by the queue, the session store and the status board;
- the marker-file protocol that keeps an expensive benchmark run from being
  submitted twice, and its retry loop;
- the rebuilding of provider messages from journal records;
- log retention and ANSI stripping;
- paging of a transcript in UTF-8 and its reassembly by the client;
- context budgeting with a reserve for a repair turn;
- stratified sampling, grid scoring, the bounded submission window and the
  scanner for U+FFFD.

Code that works step by step is a method over a class or local variables and is
proved equal to a function; the theorems are about the functions. The functions
themselves are tied down by lemmas that speak of fields, positions and plain
numbers only. Disks, clocks,
platforms and threads are parameters: an oracle answers each call, any step of a
thread may come next, a save stops at any point, a crash may strike anywhere.

`dafny verify dfyconfig.toml` checks everything.

| file | what it models |
|---|---|
| `Wrappers.dfy`, `Sequences.dfy`, `Orders.dfy` | options, results, files; filtering, stable sorting, sorting by total orders |
| `ErrorText.dfy`, `Delivery.dfy`, `Outbox.dfy` | error classification, the queue, the drain loop |
| `Publish.dfy`, `DeliveryProtocol.dfy` | the save protocol for any store; the queue under threads, failures and crashes |
| `OrderlyPasses.dfy` | the same queue when drain passes do not overlap |
| `SessionStore.dfy`, `StatusBoard.dfy` | the session mapping; the published status snapshot |
| `Submission.dfy` | at-most-once submission and the HTTP 502 retry loop |
| `Rebuild.dfy`, `RebuildLaws.dfy` | messages from journal records; what they hold, told from the records |
| `LogFile.dfy`, `AnsiStrip.dfy` | retention; stripping |
| `Utf8.dfy`, `Paging.dfy`, `Scanner.dfy` | UTF-8 (sections 3 and 4 of RFC 3629), paging, the U+FFFD scanner |
| `Budget.dfy` | admission of a model turn |
| `Sampling.dfy`, `Grid.dfy`, `Scheduler.dfy` | sampling, grid scoring, the submission window |

## Properties that do not hold as one might wish

Each is proved with a concrete input or an exact condition, beside what does hold.

- Two drain passes that overlap on one message can turn a delivered message into
  a failed one (`DeliveryProtocol.OverlappingPassesUndoASend`, a whole run of the
  machine); a late failure leaves a finished entry alone exactly under the
  condition of `Delivery.LateFailureKeepsState`. With one pass at a time it cannot
  happen (`OrderlyPasses.FinishedStays`). The public interface allows overlapping
  passes; the bridge itself runs a single drain loop, and the one-shot command
  drains once.
- A message whose channel cannot be built does not always keep its place in the
  queue, as the comment at `channels/src/outbox.rs:128-130` has it: the reason
  text itself is classified (`Outbox.UnavailableKeepsItsPlaceExactlyWhen`). The
  queue takes any channel name, and under one it is given up at the first attempt
  (`Outbox.AnUnknownChannelCanReadAsPermanent`).
- Two chats can share one session exactly when one chat id is the other followed
  by a colon and anything (`SessionStore.ChatsCollideExactlyWhen`,
  `SessionStore.AColonJoinsTwoChats`).
- A session id just set can be forgotten, exactly when some call of
  `get_or_create` is still between its two locks
  (`SessionStore.SessionSticksExactlyWhen`, `SessionStore.OverlappingCreateForgets`).
- After a trim whose reopen failed, what is written reports success and does not
  reach the log file any more (`LogFile.WriteAfterALostReopen`); everything reaches
  it exactly while no write meets the condition `Loses`
  (`LogFile.LostExactlyWhen`, `LogFile.AllReachesWhile`, `LogFile.NothingReachesAfter`).
- The repair reserve can be one short of what a repair needs
  (`Budget.ReserveCanFallOneShort`, `Budget.RepairIsAdmittedExactlyWhen`).
- Stripping piece by piece is not stripping the whole exactly when a piece ends
  inside an escape sequence (`AnsiStrip.PiecewiseExactlyAtGround`,
  `AnsiStrip.ASplitSequenceLeaks`).

## Model

| member | source | states |
|---|---|---|
| ErrorText.PermanentHoweverWrapped | channels/src/delivery.rs:110-115 | a permanent classification ignores ASCII case and survives any words put around the message |
| ErrorText.CaseIsIgnored | channels/src/delivery.rs:110-115 | texts that differ only in the case of ASCII letters are classified alike |
| ErrorText.PermanentExactlyWhen | channels/src/delivery.rs:110-115 | a text without ASCII capitals is permanent exactly when one of the patterns stands in it |
| ErrorText.ThePatterns | channels/src/delivery.rs:78-107 | which texts are patterns, and that there are no others |
| Delivery.DueIsExact | channels/src/delivery.rs:203-220 | the due entries are exactly those of the queue whose wait is over, each as often, oldest first, ties in queue order |
| Delivery.PendingIsExact | channels/src/delivery.rs:203-213 | the pending entries are listed each as often as the queue holds it, and no other |
| Delivery.OldestFirst | channels/src/delivery.rs:203-220 | both listings go by the time of queueing, the oldest first |
| Delivery.OneInstantKeepsOrder | channels/src/delivery.rs:203-220 | entries queued at one instant keep their order |
| Delivery.DueExactlyWhen | channels/src/delivery.rs:55-70 | an entry is due while it is pending and the wait of its number of attempts has passed since the last one, or since it was queued; the five waits in milliseconds |
| Delivery.WaitsGrow | channels/src/delivery.rs:65-70 | a later attempt never waits less, and up to the fifth each waits longer |
| Delivery.EvictionIsACut | channels/src/delivery.rs:184-196 | eviction is a cut: before it only pending entries survive, after it everything, and min(n, finished) entries went |
| Delivery.DroppedKeepsPending | channels/src/delivery.rs:184-196 | eviction keeps every pending entry in order and the newest finished ones |
| Delivery.EnqueueKeepsEveryPending | channels/src/delivery.rs:164-200 | enqueueing keeps every pending entry, drops exactly the oldest min(excess, finished) finished ones, and ends within the bound or with pending entries only, also for an oversized list |
| Delivery.FailureKeepsBudget | channels/src/delivery.rs:248-266 | a recorded failure ends the entry exactly on a permanent error or the fifth attempt, and otherwise makes it wait |
| Delivery.LateFailureKeepsState | channels/src/delivery.rs:248-266 | when a failure recorded against a finished entry leaves its state alone, both directions |
| Delivery.RecordsTouchOne | channels/src/delivery.rs:236-266 | recording changes the first entry with the id and no other: what a success and what a failure makes of each of its fields, and the state reported |
| Delivery.UnknownIdsChangeNothing | channels/src/delivery.rs:236-266 | an id the list does not hold changes nothing, and its failure is answered with failed |
| Delivery.PrunedIsExact | channels/src/delivery.rs:269-278 | pruning keeps every pending entry, as often as it was there, and no other |
| DeliveryProtocol.OverlappingPassesUndoASend | channels/src/outbox.rs:123-178 | a run in which two passes overlap on one message: it is accepted from the first and ends as failed by the second |
| Delivery.DeliveryQueue.Load | channels/src/delivery.rs:141-161 | absent file, unreadable file and readable file at start |
| Delivery.DeliveryQueue.Save | channels/src/delivery.rs:280-307 | a save publishes the whole list or leaves the file as it was; after a load error it never touches a file |
| Delivery.DeliveryQueue.Evict | channels/src/delivery.rs:184-196 | the eviction loop drops the first finished entries, as the specification says |
| Delivery.DeliveryQueue.Enqueue | channels/src/delivery.rs:164-200 | new list, file and result for every way the save can go |
| Delivery.DeliveryQueue.PendingEntries | channels/src/delivery.rs:203-213 | the listing PendingIsExact, OldestFirst and OneInstantKeepsOrder are about |
| Delivery.DeliveryQueue.Due | channels/src/delivery.rs:215-220 | the listing DueIsExact, OldestFirst and DueExactlyWhen are about |
| Delivery.DeliveryQueue.MarkSuccess | channels/src/delivery.rs:236-246 | the first entry with the id is sent and its error cleared; an unknown id changes nothing |
| Delivery.DeliveryQueue.MarkFailure | channels/src/delivery.rs:248-266 | the new list and the reported state; an unknown id reads as failed |
| Delivery.DeliveryQueue.PruneFinished | channels/src/delivery.rs:269-278 | exactly the pending entries remain |
| Outbox.DrainEntry | channels/src/outbox.rs:123-178 | entry by entry: untouched when not due; else sent, with attempts unchanged, exactly when the channel could be built and every piece was accepted, and one attempt more otherwise |
| Outbox.FailureIsTheAnswer | channels/src/outbox.rs:150-188 | the error recorded is the platform's answer to the first piece it refuses; it decides, with the number of attempts, whether the message is given up, and the outcome |
| Outbox.FailureIsTheReason | channels/src/outbox.rs:125-137 | without a channel the error recorded names the channel and the reason |
| Outbox.DrainEntryExactly | channels/src/outbox.rs:123-188 | every field of a due entry after a pass, and the outcome counted for it, read off the platform's answers of its turn |
| Outbox.TurnOnTheWire | channels/src/outbox.rs:156-164 | each turn puts the entry's pieces on the wire, in order, up to the first the platform refuses |
| Outbox.DrainAccounting | channels/src/outbox.rs:23-46 | sent + retried + failed is the number of due entries, and pending shrinks by exactly sent + failed |
| Outbox.SummaryIsTrue | channels/src/outbox.rs:123-143 | a pass leaves exactly as many entries more sent, and as many more failed, as its summary says; the rest of the due ones were retried |
| Outbox.DrainPrefix | channels/src/outbox.rs:123-147 | the same books hold at every point of a pass |
| Outbox.DueUniqueIds | channels/src/delivery.rs:203-220 | the entries of a pass carry different ids when the queue's do |
| Outbox.SentMeansAllPieces | channels/src/outbox.rs:150-178 | each attempt sends a prefix of the pieces, all of them exactly when it ends as sent |
| Outbox.NoFailureMeansAllAccepted | channels/src/outbox.rs:150-178 | an attempt has no failure exactly when the channel exists and accepts every piece |
| Outbox.UnavailableKeepsItsPlaceExactlyWhen | channels/src/outbox.rs:123-142 | a message of an unavailable channel stays pending exactly while attempts remain and the text naming channel and reason does not read as permanent |
| Outbox.AnUnknownChannelCanReadAsPermanent | channels/src/outbox.rs:125-142 | a message queued for an undefined channel of a certain name is given up at the first attempt |
| Outbox.RetriesAreBounded | channels/src/outbox.rs:123-188 | from any list, over any number of passes, the attempts made and left never exceed those left at the start, in sum at most five for each message; finished entries are never touched |
| Outbox.FailuresAreBounded | channels/src/outbox.rs:123-188 | of messages that all had at most five failures none ever records more |
| Outbox.EachMessageIsBounded | channels/src/outbox.rs:123-188 | message by message, from any list: at most as many attempts as five leaves after its failures, and one if it came with five or more |
| Outbox.DrainSpends | channels/src/outbox.rs:123-188 | an attempt spends at least one of those its message had left |
| Outbox.DrainKeepsShape | channels/src/outbox.rs:123-188 | a pass keeps ids unique and finished entries as they are, and spends remaining attempts for each attempt made |
| Outbox.Outbox.DeliverEntry | channels/src/outbox.rs:150-178 | the piece loop: queue, outcome and what reached the platform |
| Outbox.Outbox.RecordAttemptFailure | channels/src/outbox.rs:180-188 | the failure is recorded and classified as retried or failed |
| Outbox.Outbox.AttemptDelivery | channels/src/outbox.rs:125-145 | one turn of the pass, with and without a channel |
| Outbox.Outbox.DrainDue | channels/src/outbox.rs:123-147 | one call computes the pass the lemmas are about: queue, summary and everything on the wire |
| Outbox.Outbox.DrainAll | channels/src/outbox.rs:125-145 | the loop over the entries that were due at the start |
| Publish.StepInv | channels/src/delivery.rs:280-307 | every step of any thread keeps the invariant, versions never fall, a store with a load error keeps its file |
| Publish.PublishIsSafe | channels/src/delivery.rs:280-307 | in every run: one writer of the temporary file, the file is a past value of memory, later files are never older, an unreadable store is never overwritten, and it equals memory once the last save succeeded and nothing is outstanding |
| Publish.VersionsGrow | channels/src/delivery.rs:280-307 | what has been published never goes back and history is only extended |
| Publish.StepExactly | channels/src/delivery.rs:280-307 | memory takes the value of a change and nothing else; the file is replaced by a rename only, with what memory is |
| Publish.SaveGetsThrough | channels/src/delivery.rs:280-307 | with the lock free and the store readable, a change and the steps of its save are possible one after another and end with the new value in the file |
| DeliveryProtocol.EventSafe | channels/src/delivery.rs:164-307 | enqueue, drain, record, prune, each step of a save, crash and restart all keep the safety invariant |
| DeliveryProtocol.BooksExactly | channels/src/delivery.rs:164-266 | which event makes a message count as acknowledged, as accepted, as given up, and that no other does |
| DeliveryProtocol.StoresExactly | channels/src/delivery.rs:164-307 | what each event makes of the list in memory and of the file |
| DeliveryProtocol.RestartExactly | channels/src/delivery.rs:141-161 | what a restart finds for each state of the file |
| DeliveryProtocol.AtLeastOnce | channels/src/delivery.rs:164-200 | once enqueue returned Ok the message is ever after accepted, given up by an attempt recorded for it, or held as pending by the file and by every process that read it |
| DeliveryProtocol.CrashLosesNoPending | channels/src/delivery.rs:141-161 | a crash and a readable restart bring every unsettled acknowledged message back as pending |
| DeliveryProtocol.GivenUpForAReason | channels/src/delivery.rs:248-266 | no message counts as given up unless a permanent failure or the last one allowed was recorded for an entry the list held |
| DeliveryProtocol.PendingIsAlwaysRetriable | channels/src/delivery.rs:22-70 | under any interleaving, failure, crash and reload, from any file, a pending message has had fewer than five failures, so the fallback wait is never used, unless it is an entry the first file held, still as it was |
| OrderlyPasses.FinishedStays | channels/src/delivery.rs:236-278 | with one pass at a time and unused ids, while the process lives and whatever interleaves, a sent or failed entry stays in the list unchanged until the step that evicts or prunes it |
| OrderlyPasses.AnswersMeetWaitingMessages | channels/src/outbox.rs:123-188 | in such histories the platform's answer is only ever recorded for a message that is still pending |
| OrderlyPasses.StepOrderly | channels/src/delivery.rs:164-307 | every step keeps ids apart, one pass at a time, and all that a pass has yet to try pending |
| SessionStore.ThreadsOfAChat | channels/src/session_store.rs:45-50 | within a chat, keys are equal exactly when the threads are, an empty thread id counting as none |
| SessionStore.ChatsCollideExactlyWhen | channels/src/session_store.rs:45-50 | two chats can share a key exactly when one id is the other followed by a colon and anything |
| SessionStore.AColonJoinsTwoChats | channels/src/session_store.rs:45-50 | a concrete collision |
| SessionStore.RunKeyed | channels/src/session_store.rs:54-126 | every entry is filed under its own key after any steps of any threads, each step one hold of a lock |
| SessionStore.ResetRemoves | channels/src/session_store.rs:107-116 | a reset leaves no entry for its conversation and every other one as it was |
| SessionStore.ResetSticks | channels/src/session_store.rs:54-126 | a conversation that was reset stays unknown, whatever all threads do, until one sets its id or inserts a placeholder; the others do not notice |
| SessionStore.SetFiles | channels/src/session_store.rs:80-97 | setting an id files an entry with every field given, both times now, and leaves every other entry |
| SessionStore.TouchMovesOneTime | channels/src/session_store.rs:119-126 | a touch moves the time of last activity of an entry that is there, and nothing else |
| SessionStore.LookOnlyLooks | channels/src/session_store.rs:54-62 | a look-up changes no mapping and waits to insert exactly when it found nothing |
| SessionStore.InsertFiles | channels/src/session_store.rs:63-77 | the insertion files an entry without a session id, and leaves every other entry |
| SessionStore.ConversationsAreIndependent | channels/src/session_store.rs:54-126 | what the store holds about a key after any steps of any threads depends only on the steps about that key |
| SessionStore.SessionSticks | channels/src/session_store.rs:54-126 | while no call of get_or_create waits to insert the key, a session id survives any steps that neither set nor reset the conversation |
| SessionStore.SessionSticksExactlyWhen | channels/src/session_store.rs:54-126 | a session id just set survives whatever all threads do, short of setting or resetting it, exactly when no call of get_or_create waits to insert the key |
| SessionStore.OverlappingCreateExactlyWhen | channels/src/session_store.rs:54-77 | with other threads between its locks get_or_create leaves the mapping of a call made at once at the end exactly when the key was then still free or held that placeholder |
| SessionStore.OverlappingCreateForgets | channels/src/session_store.rs:54-77 | a run in which a session id set between the two locks is forgotten |
| SessionStore.FileIsTheLastPublished | channels/src/session_store.rs:151-173 | after any run the file is what was found or loads back as exactly the mapping at the last successful save; an unreadable store never replaces its file |
| SessionStore.LoadedIsKeyed | channels/src/session_store.rs:128-149 | whatever the file lists, the loaded mapping is keyed and made of its entries |
| SessionStore.LaterEntryWins | channels/src/session_store.rs:128-139 | of several entries with one key the last one is loaded |
| SessionStore.ReloadIsIdentity | channels/src/session_store.rs:128-173 | saving in any enumeration order and loading rebuilds the identical mapping |
| SessionStore.PersistWithRetry | channels/src/session_store.rs:191-219 | at most 21 tries; success exactly when one of them succeeds and all before it failed transiently |
| SessionStore.TransientKinds | channels/src/session_store.rs:214-219 | the three kinds of failure that a second try can clear |
| SessionStore.SessionStore.constructor | channels/src/session_store.rs:34-43 | what a store starts with for each state of its file |
| SessionStore.SessionStore.LoadFromDisk | channels/src/session_store.rs:128-149 | the loading loop folds the entries, a later one replacing an earlier one |
| SessionStore.SessionStore.Values | channels/src/session_store.rs:160-162 | the listing holds exactly the mapping's entries |
| SessionStore.SessionStore.SaveToDisk | channels/src/session_store.rs:151-173 | the file is left alone or loads back as exactly the memory; success is characterised exactly |
| SessionStore.SessionStore.GetOrCreate | channels/src/session_store.rs:54-77 | two holds of a lock with other threads in between: an existing id is returned, else the store goes through look-up, the others' steps and the insertion |
| SessionStore.SessionStore.SetSessionId | channels/src/session_store.rs:80-97 | the change, the steps of other threads, then the save: the mapping, and a file that reloads to it exactly when the save succeeds |
| SessionStore.SessionStore.Get | channels/src/session_store.rs:100-104 | an id is found exactly when some entry has the conversation's key |
| SessionStore.SessionStore.Reset | channels/src/session_store.rs:107-116 | the removal, the steps of other threads, then the save; the conversation stays unknown unless one of those steps files it again |
| SessionStore.SessionStore.Touch | channels/src/session_store.rs:119-126 | no entry comes or goes, and of an existing one only the time of last activity changes; nothing is saved |
| StatusBoard.SnapshotTellsTheLog | channels/src/status.rs:169-252 | a channel is listed exactly when something was recorded about it; counts are tallies of the events; times and state are those of the latest events; an uptime of zero is there once it started |
| StatusBoard.CountsNeverFall | channels/src/status.rs:202-252 | a snapshot of a longer log counts at least as much |
| StatusBoard.CountsAreCardinalities | channels/src/status.rs:202-252 | each published count is the number of positions of the log with such an event of the channel |
| StatusBoard.LastTransitionShows | channels/src/status.rs:169-191 | state and explanation are those of the last transition; a start runs, with nothing to explain |
| StatusBoard.LastMessageShows | channels/src/status.rs:202-219 | the times are those of the last message in and the last message out |
| StatusBoard.WhatNeverHappened | channels/src/status.rs:283-299 | what never happened on a channel leaves its field empty |
| StatusBoard.StatusBoard.CleanMeansPublished | channels/src/status.rs:255-277 | when the dirty flag is down and something was recorded, the file shows exactly what is in memory |
| StatusBoard.StatusBoard.constructor | channels/src/status.rs:151-161 | a new board is clean and due |
| StatusBoard.StatusBoard.BuildSnapshot | channels/src/status.rs:283-299 | the merge loop computes the published statuses |
| StatusBoard.StatusBoard.Write | channels/src/status.rs:301-313 | the file is replaced whole or left alone |
| StatusBoard.StatusBoard.Flush | channels/src/status.rs:270-277 | success publishes everything and cleans the board, failure changes neither file nor flag |
| StatusBoard.StatusBoard.FlushIfDue | channels/src/status.rs:255-267 | it writes exactly when something changed and two seconds have passed, and stays due when the write fails |
| StatusBoard.StatusBoard.CountInbound | channels/src/status.rs:202-209 | one more inbound event in the log, memory still its replay, board dirty |
| StatusBoard.StatusBoard.CountOutbound | channels/src/status.rs:212-219 | the same for outbound |
| StatusBoard.StatusBoard.CountDuplicate | channels/src/status.rs:222-230 | the same for duplicates |
| StatusBoard.StatusBoard.CountRejected | channels/src/status.rs:233-241 | the same for rejected messages |
| StatusBoard.StatusBoard.CountSuperseded | channels/src/status.rs:244-252 | the same for superseded turns |
| StatusBoard.StatusBoard.SetState | channels/src/status.rs:169-178 | the transition is recorded, other threads may act, then everything recorded is published, or the board stays dirty |
| StatusBoard.StatusBoard.SetStarted | channels/src/status.rs:181-191 | the same for a start |
| StatusBoard.StatusBoard.Others | channels/src/status.rs:202-277 | whatever other threads record and publish keeps the board's promises, and what is published never goes back |
| Submission.AtMostOneSubmission | benchmark/fusion/future_runner.py:134-201 | after any sequence of invocations killed anywhere: no attempt submitted twice, attempts numbered without gaps up to retries + 1, each but the first after a durable HTTP 502 result for exactly the acknowledged run |
| Submission.SubmissionsAreBounded | benchmark/fusion/retry.py:31-43 | a case costs at most retries + 1 submissions |
| Submission.ResumesArePinned | benchmark/fusion/future_runner.py:138-145 | acknowledgement, submissions and written results of an attempt never change, a result written later names exactly the run the acknowledgement pins, a finished case is left as it is |
| Submission.RetryNeedsEvidence | benchmark/fusion/future_runner.py:305-334 | a returned result is retryable exactly when the run was acknowledged, did not complete and a failed ledger row of that run names HTTP 502 |
| Submission.ReturnedResult | benchmark/fusion/future_runner.py:242-337 | a returned result is completed exactly when the run was acknowledged with both ids, completed and nothing unexpected came up; its ids are the acknowledged ones; its status is 502 exactly when a failed ledger row of that run shows it |
| Submission.NewDirectory | benchmark/fusion/future_runner.py:146-201 | when a new attempt is submitted, acknowledged, given a result, killed, and returned |
| Submission.ExistingDirectory | benchmark/fusion/future_runner.py:134-145 | what a call does to a directory that is there, with and without resuming |
| Submission.ConcludesExactlyWhen | benchmark/fusion/retry.py:11-85 | a case run for the first time is concluded with attempt m exactly when all before it ended in HTTP 502, it returned something else or was the last one, and nothing kept the case from being begun and concluded; and when its result is a completed one |
| Submission.KilledExactlyWhen | benchmark/fusion/retry.py:11-85 | when a case run for the first time ends with the process killed |
| Submission.DoneMeansConcluded | benchmark/fusion/retry.py:11-86 | an invocation that concludes a case writes down the result of an attempt on disk, and one that asks for a retry only when none is left; a concluded case is only repeated |
| Submission.InterruptedStays | benchmark/fusion/retry.py:31-43 | after an attempt without markers no invocation, with any number of retries, touches or adds an attempt; one that reaches it changes nothing at all, one that stops short can only conclude the case with an earlier result |
| Submission.CampaignSound | benchmark/fusion/retry.py:11-85 | every invocation keeps the invariant over all markers and only extends what is on disk |
| Submission.Runner.Classify | benchmark/fusion/future_runner.py:327-337 | the ledger scan finds HTTP 502 exactly when a row confirms it |
| Submission.Runner.Observe | benchmark/fusion/future_runner.py:192-337 | the result of an acknowledged run, as ReturnedResult characterises it |
| Submission.Runner.FinishCase | benchmark/fusion/future_runner.py:349-352 | the result is written whatever happened, unless the process dies or the write fails |
| Submission.Runner.SubmitCase | benchmark/fusion/future_runner.py:146-193 | the path of a new directory, with a crash possible before every durable effect |
| Submission.Runner.RunCaseAt | benchmark/fusion/future_runner.py:134-201 | one case call computes the transition the theorems are about |
| Submission.Runner.RunSingleOnce | benchmark/fusion/retry.py:11-86 | the attempt loop computes the transition the theorems are about |
| Rebuild.RebuiltHasProviderShape | agent/examples/compaction_probe.rs:199-324 | every tool message stands in the block right after the speaker of its call, every emitted call is answered there, no call id is emitted twice |
| Rebuild.ResultsAreConserved | agent/examples/compaction_probe.rs:222-323 | for every call id the delivered results are all the recorded ones in arrival order when some turn calls it, else none |
| Rebuild.SpeechSurvives | agent/examples/compaction_probe.rs:276-323 | every non-empty speaker text survives in turn order and nothing else is said |
| RebuildLaws.ParsedExactlyWhen | agent/examples/compaction_probe.rs:160-207 | which records become an entry, and what the entry takes from its record |
| RebuildLaws.ParseAllConcat | agent/examples/compaction_probe.rs:199-214 | records become entries one by one and in their order |
| RebuildLaws.JoinConcat | agent/examples/compaction_probe.rs:271 | nothing for no text, a text alone as it is, one line end between two lists of texts |
| RebuildLaws.TextsConcat | agent/examples/compaction_probe.rs:257-265 | the texts of a group are those of its entries in their order |
| RebuildLaws.EveryTextIsHeard | agent/examples/compaction_probe.rs:247-283 | every recorded text of a group that no tool leads stands in one speech, between the texts recorded before and after it, under the role and source of the group's first entry, between what earlier and later groups say |
| RebuildLaws.NothingElseIsHeard | agent/examples/compaction_probe.rs:247-283 | what is said is said for a group, in their order, and nothing for one a tool leads or without text |
| RebuildLaws.CallsKeepTheirOrder | agent/examples/compaction_probe.rs:277-291 | calls are shown in the order in which they were first recorded, and exactly those called in a group no tool leads and with a recorded result |
| RebuildLaws.CallIdsAreTheCalls | agent/examples/compaction_probe.rs:285-287 | an id is among the call ids exactly when a call with that id is |
| RebuildLaws.ResultsFollowTheCalls | agent/examples/compaction_probe.rs:284-323 | the results stand in the order of the calls they answer, those of one call in arrival order |
| RebuildLaws.NothingIsMadeUp | agent/examples/compaction_probe.rs:199-325 | every message is one recorded result, word for word, or the speaker of a group: its first entry's role and source, its text, and calls recorded in it, each the first with its id |
| RebuildLaws.ResultsConcatenate | agent/examples/compaction_probe.rs:222-246 | results are collected in the order of their records |
| RebuildLaws.ResultsOfARecord | agent/examples/compaction_probe.rs:178-185 | which record carries a result, and every field of that result |
| Rebuild.GroupsOnlyCut | agent/examples/compaction_probe.rs:200-214 | grouping moves nothing and cuts exactly where the position changes |
| Rebuild.ShapeConcat | agent/examples/compaction_probe.rs:276-323 | well-shaped histories may be joined |
| Rebuild.ExchangeShape | agent/examples/compaction_probe.rs:277-322 | one turn with its answers is well shaped |
| Rebuild.GroupRecords | agent/examples/compaction_probe.rs:200-214 | the grouping loop |
| Rebuild.CollectResults | agent/examples/compaction_probe.rs:223-246 | the first pass maps each call id to all its results in arrival order |
| Rebuild.BuildTurns | agent/examples/compaction_probe.rs:247-274 | the turns of the groups not led by a tool, whose texts the laws of TextsConcat and JoinConcat fix |
| Rebuild.AnswerCalls | agent/examples/compaction_probe.rs:277-291 | what a speaker says and the results its calls remove from the pool |
| Rebuild.EmitMessages | agent/examples/compaction_probe.rs:276-324 | the second pass |
| Rebuild.MessagesFromRecords | agent/examples/compaction_probe.rs:199-325 | for arbitrary records: provider shape, conservation of results, survival of speech, and that the messages are those the laws are about |
| LogFile.TailIsUnique | agent/src/logfile.rs:109-137 | a line-aligned tail is determined by its number of line ends |
| LogFile.RetentionHolds | agent/src/logfile.rs:71-107 | over any writes the file is a line-aligned tail of everything logged, with at most the limit plus slack and at least min(limit, all) line ends |
| LogFile.RetainedExactly | agent/src/logfile.rs:71-137 | byte by byte: the file is the end of all that was logged, from just behind a line end or from the start, with at most the limit and 200 line ends, and at least the limit or as many as all that was logged |
| LogFile.CountIsCardinality | agent/src/logfile.rs:140-142 | counting lines is counting the positions of line ends |
| LogFile.TailExactly | agent/src/logfile.rs:109-128 | such a tail byte by byte |
| LogFile.WriteExactly | agent/src/logfile.rs:95-137 | counter, line ends in the file, handle and success after one write, case by case |
| LogFile.JoinedExactly | agent/src/logfile.rs:71-104 | all that was logged is what was found and then what was written |
| LogFile.LogFile.Open | agent/src/logfile.rs:71-93 | when opening fails, an overlong file is trimmed, and with a readable file the counter is the truth |
| LogFile.LogFile.constructor | agent/src/logfile.rs:75-88 | the counter is seeded from the content found, or zero when it cannot be read |
| LogFile.LogFile.Count | agent/src/logfile.rs:140-142 | the counting loop |
| LogFile.LogFile.SkipLines | agent/src/logfile.rs:116-128 | the offset lies just past the wanted number of line ends |
| LogFile.LogFile.Trim | agent/src/logfile.rs:109-137 | from any counter value a successful trim restores the truth and keeps the last lines; failing before the rename changes nothing, failing to reopen leaves the trimmed file and a detached handle |
| LogFile.LogFile.Write | agent/src/logfile.rs:95-104 | from any state and however it fares: the counter, the lines held, success, and exactly when the handle is lost; without failures the retention promise is kept, and a successful trim restores it after any |
| LogFile.LogFile.Append | agent/src/logfile.rs:96 | what the disk takes reaches the file through an attached handle and is gone otherwise |
| LogFile.LogFile.Replace | agent/src/logfile.rs:129-136 | each step of the rewrite may fail; only a failed reopen detaches the handle |
| LogFile.LogFile.WriteAll | agent/src/logfile.rs:95-137 | over any run of writes: the counters, exactly what reached the file, and that the handle is still attached exactly when none of the writes loses it |
| LogFile.LostExactlyWhen | agent/src/logfile.rs:95-137 | the handle is lost by a write whose trim is due, finds too many lines and cannot reopen, and by nothing else |
| LogFile.AllReachesWhile | agent/src/logfile.rs:95-137 | everything the disk takes reaches the file as long as no earlier write loses the handle |
| LogFile.NothingReachesAfter | agent/src/logfile.rs:95-137 | after such a write nothing does, whatever is written and however it fares |
| LogFile.WriteAfterALostReopen | agent/src/logfile.rs:95-137 | a log on which a write reports success and leaves the file as it was |
| LogFile.Log | agent/src/logfile.rs:71-104 | driving the object realises the runs RetentionHolds is about |
| AnsiStrip.StripAnsi | agent/src/logfile.rs:171-191 | the peeking loop computes the three-state automaton's output |
| AnsiStrip.SkipSequence | agent/src/logfile.rs:178-184 | skipping goes to the final character or the end |
| AnsiStrip.StripIsIdempotent | agent/src/logfile.rs:171-191 | the output is an ESC-free subsequence and stripping again changes nothing |
| AnsiStrip.SequencesGo | agent/src/logfile.rs:178-185 | a whole sequence goes, up to the first character from '@' to '~', and stripping goes on behind it |
| AnsiStrip.UnfinishedSequencesGo | agent/src/logfile.rs:178-185 | a sequence without a final character takes the rest of the text with it |
| AnsiStrip.TheRestStays | agent/src/logfile.rs:186-188 | of an escape character before anything but a bracket only itself goes; any other character stays |
| AnsiStrip.PiecewiseExactlyAtGround | agent/src/logfile.rs:63-67 | stripping piece by piece is stripping the whole for every continuation exactly when the first piece ends outside any sequence |
| AnsiStrip.ASplitSequenceLeaks | agent/src/logfile.rs:171-191 | a colour sequence in two pieces leaves its last character behind |
| AnsiStrip.CleanTextIsKept | agent/src/logfile.rs:172-174 | the shortcut for text without ESC agrees |
| Utf8.BoundaryMeansValidHalves | agent/src/fusion.rs:460-468 | a character boundary is exactly where both halves are valid text |
| Utf8.BoundarySplits | agent/src/fusion.rs:464-469 | cutting at a boundary splits the decoded text |
| Utf8.BoundaryIsNear | agent/src/fusion.rs:465-468 | there is a boundary within three bytes below any position |
| Utf8.EncodedTextIsRead | scripts/scan_replacement_chars.py:176-179 | what the table of section 3 of RFC 3629 encodes is valid and decodes to what it was |
| Utf8.ReadTextIsEncoded | scripts/scan_replacement_chars.py:176-179 | valid bytes decode to characters whose encoding they are |
| Utf8.ValidMeansEncoded | scripts/scan_replacement_chars.py:176-179 | bytes are valid exactly when they are the encoding of some text |
| Paging.ServePage | agent/src/fusion.rs:459-471 | when a page is refused, that it ends at the largest boundary within 32 KiB, is valid text and advances before the end |
| Paging.PageIsNearlyFull | agent/src/fusion.rs:464-468 | a page that is not the last is at most three bytes short |
| Paging.JoinedPagesDecode | benchmark/fusion/future_runner.py:389 | joining the decoded pages is decoding the joined bytes |
| Paging.CollectPages | benchmark/fusion/future_runner.py:376-389 | the client loop ends, never reports that paging did not advance, and its pages join to the text, as bytes and decoded |
| Budget.RequestContextBytes | agent/src/fusion.rs:557-577 | saturating at every step is adding exactly and saturating once |
| Budget.AddMessage | agent/src/fusion.rs:562-575 | the same for one message and its blocks |
| Budget.AdmittedFits | agent/src/fusion.rs:532-547 | an admitted turn passes the guard and everything fits the window without saturation |
| Budget.AppendingGrows | agent/src/fusion.rs:557-577 | the size of a request grows by exactly what is appended and never falls |
| Budget.NothingSaid | agent/src/fusion.rs:559-560 | an empty conversation costs its prompt and its tools |
| Budget.OneMessageMore | agent/src/fusion.rs:561-562 | a message costs its role and 32 more |
| Budget.OneBlockMore | agent/src/fusion.rs:563-573 | a block costs its text, or content and call id, or JSON, and 32 more |
| Budget.Widths | agent/src/fusion.rs:542-551 | saturation sets in at 64 bits; the model's own limit has 32, with a sign |
| Budget.RemainingExactly | agent/src/fusion.rs:530-533 | what is left of the window is what prompt and margin leave, in plain arithmetic |
| Budget.ReserveIsLargest | agent/src/fusion.rs:537-541 | the reserve is the largest that takes at most a quarter of the window and half of what is left; a repair keeps none |
| Budget.GrantIsLargest | agent/src/fusion.rs:542-543 | the grant is the largest within the model's own limit that leaves margin and reserve free |
| Budget.AdmittedExactlyWhen | agent/src/fusion.rs:542-547 | a turn is admitted exactly when 256 tokens can be granted, in plain arithmetic |
| Budget.GuardExactly | orchestration/fusion/src/context.rs:5-9 | the guard in plain arithmetic, and the one window where saturation lets more through |
| Budget.StreamModel | agent/src/fusion.rs:527-551 | an admitted turn fits prompt, margin, grant and reserve into the window in plain arithmetic; the second guard and the 32-bit clamp never bite |
| Budget.GrantShrinksWithContext | agent/src/fusion.rs:532-547 | more context never gets a larger grant |
| Budget.RepairFindsTheReserve | agent/src/fusion.rs:537-544 | a history grown by no more than the grant leaves a repair at least the reserve |
| Budget.RepairIsAdmittedExactlyWhen | agent/src/fusion.rs:537-549 | a repair is admitted whatever was used of the grant exactly when 256 bytes of the window are left by the full grant |
| Budget.ReserveCanFallOneShort | agent/src/fusion.rs:537-549 | a concrete admitted turn after which no repair is admitted |
| Sampling.GroupRows | benchmark/fusion/datasets.py:218-220 | the groups partition the rows in their order |
| Sampling.OrderStrata | benchmark/fusion/datasets.py:221-224 | strata and the rows of each in rank order |
| Sampling.InterleavedTakesPrefixes | benchmark/fusion/datasets.py:226-229 | each stratum contributes a prefix of its own order |
| Sampling.PicksAreBalanced | benchmark/fusion/datasets.py:226-229 | no stratum is more than one pick ahead of one with rows left |
| Sampling.Round | benchmark/fusion/datasets.py:227-229 | one round takes the next row of each stratum while more are wanted |
| Sampling.RoundRobin | benchmark/fusion/datasets.py:226-229 | the loop ends with min(wanted, pool) rows, an interleaving up to some point |
| Sampling.ChosenIsBalanced | benchmark/fusion/datasets.py:226-229 | the chosen rows are balanced prefixes of the strata |
| Sampling.ChoiceIsFromThePool | benchmark/fusion/datasets.py:215-233 | no row is chosen more often than the pool holds it |
| Sampling.SampleDataset | benchmark/fusion/datasets.py:217-231 | refused exactly when the pool is too small, else of the wanted size, dealt round by round from the strata in rank order, a prefix of each and balanced |
| Sampling.SampleCases | benchmark/fusion/datasets.py:215-233 | the samples of all datasets in order, each dealt by the rank of dataset and stratum, refused exactly when one pool is too small |
| Sampling.EachIsASample | benchmark/fusion/datasets.py:217-232 | every part of the result is such a sample of its own dataset |
| Sampling.EachIsARankedDeal | benchmark/fusion/datasets.py:215-233 | every part has the wanted length and goes round by round, and within a round by the rank of dataset and stratum, skipping no stratum that has a row left, each by its rows' keys |
| Sampling.VisitsAreRanked | benchmark/fusion/datasets.py:217-224 | the strata: each name once, the lower rank first, every row of the stratum as often as the pool has it, the lower key first |
| Sampling.InterleavedIsADeal | benchmark/fusion/datasets.py:226-229 | the choice takes its places strictly upwards by round and stratum and leaves out none before the last |
| Grid.CanonicalRowDecides | benchmark/fusion/scoring.py:73-80 | two rows have equal canonical forms exactly when they assign the same texts to the same columns |
| Grid.CanonicalDecidesMeaning | benchmark/fusion/scoring.py:60-83 | canonical forms are equal exactly when the grids are equal as multisets of such assignments |
| Grid.AcceptedExactlyWhen | benchmark/fusion/scoring.py:61-79 | a grid is accepted exactly when its header lists different strings and its rows, not none, each fit it |
| Grid.UsableExactlyWhen | benchmark/fusion/scoring.py:73-79 | a row fits as a list with one usable cell for each column, or an object with a usable field for each and no other |
| Grid.MeaningExactly | benchmark/fusion/scoring.py:74-80 | under each column stands the text of the cell that stands there |
| Grid.ShownExactly | benchmark/fusion/scoring.py:80 | how each kind of cell is shown: digits that read back as the number, behind a minus sign exactly when it is negative; True and False; a text as it is |
| Grid.DecimalReadsBack | benchmark/fusion/scoring.py:80 | decimal notation has digits only, no leading zero, and reads back as the number |
| Grid.RowFormIsIrrelevant | benchmark/fusion/scoring.py:74-76 | giving any choice of list rows as objects changes neither acceptance nor the canonical form of a grid |
| Grid.ColumnOrderIsIrrelevant | benchmark/fusion/scoring.py:60-81 | permuting the columns of any grid, and the cells of its list rows with them, changes neither acceptance nor the canonical form |
| Grid.RowOrderIsIrrelevant | benchmark/fusion/scoring.py:81 | permuting the rows of any grid changes neither acceptance nor the canonical form |
| Grid.Canonicalise | benchmark/fusion/scoring.py:60-81 | the loop accepts exactly the well-formed grids and computes the canonical form |
| Grid.ScoreGrid | benchmark/fusion/scoring.py:49-83 | parsed exactly when both grids are well formed, correct exactly when they also mean the same |
| Scheduler.BoundedThroughout | benchmark/fusion/baseline.py:338-353 | at every moment at most `jobs` items are in flight and those submitted are the first ones, none twice |
| Scheduler.FailureCloses | benchmark/fusion/baseline.py:331-332 | once a failure was seen nothing is submitted |
| Scheduler.RunExactly | benchmark/fusion/baseline.py:338-353 | every step of a run told by the positions before it: what may be submitted and what may finish, and that the loop waits only with the window full or the work handed out |
| Scheduler.FailedExactlyWhen | benchmark/fusion/baseline.py:347-350 | a failure was seen exactly when some step finishes an item that fails |
| Scheduler.OutcomeOfTheItems | benchmark/fusion/baseline.py:338-353 | when nothing is in flight any more, a failure was seen exactly when an item fails; otherwise everything was done |
| Scheduler.Fill | benchmark/fusion/baseline.py:340-343 | the window is filled or the work has run out |
| Scheduler.Turn | benchmark/fusion/baseline.py:344-353 | one wait, one result, one submission unless it failed |
| Scheduler.Execute | benchmark/fusion/baseline.py:338-354 | for any completion order the run is disciplined, everything submitted finishes exactly once, and it fails exactly when an item does or the last report cannot be written |
| Scanner.ScanText | scripts/scan_replacement_chars.py:223-231 | the hits are maximal runs in order and apart, marked as edges, covering every U+FFFD |
| Scanner.HitsAreTheRuns | scripts/scan_replacement_chars.py:223-246 | the hits are exactly the maximal runs |
| Scanner.FilterIsExact | scripts/scan_replacement_chars.py:219-222 | decoded text shows U+FFFD exactly when the three bytes are there or the chunk is not UTF-8; on valid chunks the byte filter is exact |
| Scanner.ReplacesMaximalSubparts | scripts/scan_replacement_chars.py:221-222 | where no character starts, one U+FFFD stands for the longest stretch that some character begins with, or for one byte |
| Scanner.StretchExactly | scripts/scan_replacement_chars.py:218 | a stretch has the bytes of the body from the offset on, as many as asked for or as there are |
| Scanner.ScanChunk | scripts/scan_replacement_chars.py:218-246 | no hits exactly without the three bytes, else the maximal runs of the decoded text |
| Scanner.DecodingPartsInventsReplacements | scripts/scan_replacement_chars.py:153-155 | decoding the parts of a clean body shows no U+FFFD exactly when it was cut between characters |
| Scanner.StretchIsTextExactlyWhen | scripts/scan_replacement_chars.py:218-222 | the stretch of a valid body is text exactly when it starts and ends between characters |
| Scanner.Contents.BodyOf | scripts/scan_replacement_chars.py:164-181 | the cache is invisible: the joined segments, one fetch for each change of id, damaged bodies counted |
| Scanner.Contents.ScanDelta | scripts/scan_replacement_chars.py:218-246 | the hits of a delta are those of its stretch of the whole body |

## Left out

- Two processes sharing one queue file: the source has an in-process lock only, so nothing is claimed across processes.
- Real files, JSON, clocks, sleeping, hashing and id generation: files are values replaced whole, times and ranks are parameters, ids are assumed unique (a drain pass is only described for a list without repeated ids), digests are taken as ranks.
- Integer overflow of attempt, message and line counters (u32, u64, usize): they are unbounded here; the saturating arithmetic of due times and of the budget is modelled.
- Delivery.FailureKeepsBudget: speaks of pending entries; failures recorded late, against finished ones, are the subject of LateFailureKeepsState and can exceed the limit.
- OrderlyPasses.FinishedStays: says nothing across a crash; what a restart reads may be older, and a message finished since is pending again.
- DeliveryProtocol.AtLeastOnce: says nothing about duplicates; a crash between a platform's acceptance and the save sends a message again, as the source accepts.
- LogFile.LogFile.Write: nothing but this process writes the file; the retention bound from above is promised only while no write or trim has failed, or after a trim that succeeded.
- Submission.Runner.RunCaseAt: a marker that is there can be read back; an acknowledgement is an object whose two ids are texts or missing; a failure while the directory is being prepared is not told apart from a kill before submission; the contents of the other evidence files, the abort on timeout and the cost bookkeeping are not modelled.
- Paging.CollectPages: the transcript does not change between page requests.
- Publish.PublishIsSafe: one temporary file name stands for the session store's uniquely named ones; the queue's steps are the finest of the three stores.
- Scheduler.Execute: an item that raises and a report that cannot be written after that item count as the same failure.
- Grid.Canonicalise: Python's limit on the digits of an integer turned into text; a cell of another JSON type is only "unusable".
- `deliver_now`, `Outbox.context`, platform senders and message chunking: chunking is an abstract function, senders are oracles; counting outbound messages inside the drain loop is left to the status board's own model.
- `selected_report_entries`, `group_hits`, `context_of`, report rendering and usage totals: each claim is settled by reading one body.
- `StatusSnapshot::load` and `is_fresh`: reading a snapshot is one branch each.
- HTTP, gRPC and TLS clients, command-line and console code, access policy, configuration and the user interface.
