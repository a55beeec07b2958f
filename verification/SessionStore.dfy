/** The conversation-to-session mapping (channels/src/session_store.rs). */
module SessionStore {
  import opened Wrappers
  import opened Sequences

  datatype SessionEntry = SessionEntry(
    chatId: string,
    threadId: Option<string>,
    sessionId: string,
    createdAt: int,
    lastActive: int)

  type Sessions = map<string, SessionEntry>

  // ---------------------------------------------------------------- keys

  function SessionKey(chat: string, thread: Option<string>): string {
    if thread.Some? && thread.value != "" then chat + ":" + thread.value else chat
  }

  function EntryKey(e: SessionEntry): string {
    SessionKey(e.chatId, e.threadId)
  }

  /** An empty thread id is no thread. */
  function Normal(thread: Option<string>): Option<string> {
    if thread == Some("") then None else thread
  }

  /** Within one chat, keys tell threads apart, and nothing but an empty thread id from none is confused. */
  lemma ThreadsOfAChat(chat: string, thread: Option<string>, thread': Option<string>)
    ensures SessionKey(chat, thread) == SessionKey(chat, thread') <==> Normal(thread) == Normal(thread')
  {
    var a, b := SessionKey(chat, thread), SessionKey(chat, thread');
    if a == b {
      assert |a| == |b|;
      if Normal(thread).Some? && Normal(thread').Some? {
        assert thread.value == a[|chat| + 1..] == b[|chat| + 1..] == thread'.value;
      }
    }
  }

  ghost predicate CanCollide(chat: string, chat': string) {
    exists thread, thread' :: SessionKey(chat, thread) == SessionKey(chat', thread')
  }

  /**
   * Across chats the key is not injective. Some threads of two different chats
   * share a session exactly when one chat id is the other followed by a colon
   * and more (or nothing).
   */
  lemma ChatsCollideExactlyWhen(chat: string, chat': string)
    requires chat != chat'
    ensures CanCollide(chat, chat') <==> chat + ":" <= chat' || chat' + ":" <= chat
  {
    if CanCollide(chat, chat') {
      var thread, thread' :| SessionKey(chat, thread) == SessionKey(chat', thread');
      if |chat| <= |chat'| {
        ShorterIsPrefix(chat, thread, chat', thread');
      } else {
        ShorterIsPrefix(chat', thread', chat, thread);
      }
    }
    if chat + ":" <= chat' {
      Collision(chat, chat');
    }
    if chat' + ":" <= chat {
      Collision(chat', chat);
      assert SessionKey(chat, Some("x")) == SessionKey(chat', Some(chat[|chat'| + 1..] + ":x"));
    }
  }

  lemma ShorterIsPrefix(chat: string, thread: Option<string>, chat': string, thread': Option<string>)
    requires chat != chat' && |chat| <= |chat'| && SessionKey(chat, thread) == SessionKey(chat', thread')
    ensures chat + ":" <= chat'
  {
    var key := SessionKey(chat, thread);
    assert chat == key[..|chat|] && chat' == key[..|chat'|];
    assert |chat| < |chat'|;
    assert key[|chat|] == ':';
  }

  lemma Collision(chat: string, chat': string)
    requires chat + ":" <= chat'
    ensures SessionKey(chat', Some("x")) == SessionKey(chat, Some(chat'[|chat| + 1..] + ":x"))
  {
    assert chat' == chat + ":" + chat'[|chat| + 1..];
    var rest := chat'[|chat| + 1..];
    assert (chat + ":" + rest) + ":" + "x" == chat + ":" + (rest + ":x");
  }

  /** Chat "a", thread "b" and the threadless chat "a:b" are given one session. */
  lemma AColonJoinsTwoChats()
    ensures SessionKey("a", Some("b")) == SessionKey("a:b", None)
  {
  }

  /** Every entry is filed under its own key. */
  ghost predicate Keyed(m: Sessions) {
    forall k :: k in m ==> EntryKey(m[k]) == k
  }

  // ---------------------------------------------------------------- the file

  /** Reading the file entry by entry: a later entry replaces an earlier one with its key. */
  function LoadAll(entries: seq<SessionEntry>): Sessions {
    if entries == [] then map[]
    else
      var last := entries[|entries| - 1];
      LoadAll(entries[..|entries| - 1])[EntryKey(last) := last]
  }

  lemma {:induction false} LoadedIsKeyed(entries: seq<SessionEntry>)
    ensures Keyed(LoadAll(entries))
    ensures forall k :: k in LoadAll(entries) ==> LoadAll(entries)[k] in entries
    ensures forall e :: e in entries ==> EntryKey(e) in LoadAll(entries)
  {
    if entries != [] {
      LoadedIsKeyed(entries[..|entries| - 1]);
      assert entries == entries[..|entries| - 1] + [entries[|entries| - 1]];
    }
  }

  /** Of several entries with one key the last one is loaded. */
  lemma {:induction false} LaterEntryWins(entries: seq<SessionEntry>, i: nat)
    requires i < |entries|
    requires forall j :: i < j < |entries| ==> EntryKey(entries[j]) != EntryKey(entries[i])
    ensures EntryKey(entries[i]) in LoadAll(entries)
    ensures LoadAll(entries)[EntryKey(entries[i])] == entries[i]
  {
    if i < |entries| - 1 {
      var front := entries[..|entries| - 1];
      assert forall j :: 0 <= j < |front| ==> front[j] == entries[j];
      LaterEntryWins(front, i);
    }
  }

  predicate Lists(m: Sessions, entries: seq<SessionEntry>) {
    && (forall k :: k in m ==> m[k] in entries)
    && (forall e :: e in entries ==> EntryKey(e) in m && m[EntryKey(e)] == e)
  }

  /** Saving in whatever order the map is enumerated and loading again rebuilds the same mapping. */
  lemma ReloadIsIdentity(m: Sessions, entries: seq<SessionEntry>)
    requires Keyed(m) && Lists(m, entries)
    ensures LoadAll(entries) == m
  {
    LoadedIsKeyed(entries);
    var r := LoadAll(entries);
    forall k | k in m ensures k in r {
      assert m[k] in entries;
    }
    forall k | k in r ensures k in m && m[k] == r[k] {
      assert r[k] in entries;
    }
  }

  // ---------------------------------------------------------------- the store and its steps

  /** One call of get_or_create. */
  datatype Creation = Creation(chat: string, thread: Option<string>, now: int)

  datatype Op =
    | Set(chat: string, thread: Option<string>, id: string, now: int)      // set_session_id, its change
    | Reset(chat: string, thread: Option<string>)
    | Touch(chat: string, thread: Option<string>, now: int)

  /**
   * What one thread does under one hold of a lock. get_or_create takes two: it
   * looks, and when it found nothing it inserts later. A save takes its snapshot
   * and replaces the file while no one can change the mapping; `entries` is the
   * listing it writes, and one that does not list the mapping stands for a save
   * that fails.
   */
  datatype Step =
    | Look(creation: Creation)
    | Insert(creation: Creation)
    | Change(op: Op)
    | Publish(entries: seq<SessionEntry>)

  /** `waiting` holds the calls of get_or_create between their two locks. */
  datatype Store = Store(data: Sessions, waiting: multiset<Creation>, file: File<seq<SessionEntry>>, readable: bool)

  function CreationKey(c: Creation): string {
    SessionKey(c.chat, c.thread)
  }

  function OpKey(op: Op): string {
    SessionKey(op.chat, op.thread)
  }

  /** The key a step is about; a save is about none. */
  function StepKey(step: Step): Option<string> {
    match step
    case Look(c) => Some(CreationKey(c))
    case Insert(c) => Some(CreationKey(c))
    case Change(op) => Some(OpKey(op))
    case Publish(_) => None
  }

  function Placeholder(c: Creation): SessionEntry {
    SessionEntry(c.chat, c.thread, "", c.now, c.now)
  }

  function Perform(m: Sessions, op: Op): Sessions {
    match op
    case Set(chat, thread, id, now) => m[OpKey(op) := SessionEntry(chat, thread, id, now, now)]
    case Reset(_, _) => m - {OpKey(op)}
    case Touch(_, _, now) => if OpKey(op) in m then m[OpKey(op) := m[OpKey(op)].(lastActive := now)] else m
  }

  function Take(s: Store, step: Step): Store {
    match step
    case Look(c) => if CreationKey(c) in s.data then s else s.(waiting := s.waiting + multiset{c})
    case Insert(c) =>
      if c in s.waiting then s.(data := s.data[CreationKey(c) := Placeholder(c)], waiting := s.waiting - multiset{c}) else s
    case Change(op) => s.(data := Perform(s.data, op))
    case Publish(entries) => if s.readable && Lists(s.data, entries) then s.(file := Whole(entries)) else s
  }

  /** Steps of any number of threads, in the order the locks let them happen. */
  function Run(s: Store, steps: seq<Step>): Store {
    if steps == [] then s else Take(Run(s, steps[..|steps| - 1]), steps[|steps| - 1])
  }

  lemma RunSnoc(s: Store, steps: seq<Step>, step: Step)
    ensures Run(s, steps + [step]) == Take(Run(s, steps), step)
  {
    assert (steps + [step])[..|steps|] == steps;
  }

  lemma {:induction false} RunConcat(s: Store, a: seq<Step>, b: seq<Step>)
    ensures Run(s, a + b) == Run(Run(s, a), b)
  {
    if b == [] {
      assert a + b == a;
    } else {
      assert (a + b)[..|a + b| - 1] == a + b[..|b| - 1];
      RunConcat(s, a, b[..|b| - 1]);
    }
  }

  lemma RunOne(s: Store, step: Step)
    ensures Run(s, [step]) == Take(s, step)
  {
    assert [step][..0] == [];
  }

  lemma FirstAndThen(s: Store, first: Step, between: seq<Step>)
    ensures Run(s, [first] + between) == Run(Take(s, first), between)
  {
    RunOne(s, first);
    RunConcat(s, [first], between);
  }

  function Lookup(m: Sessions, key: string): Option<SessionEntry> {
    if key in m then Some(m[key]) else None
  }

  lemma FiledUnderItsKey(m: Sessions, key: string, e: SessionEntry)
    requires Keyed(m) && EntryKey(e) == key
    ensures Keyed(m[key := e])
  {
  }

  lemma TakeKeyed(s: Store, step: Step)
    requires Keyed(s.data)
    ensures Keyed(Take(s, step).data)
  {
    match step
    case Insert(c) => FiledUnderItsKey(s.data, CreationKey(c), Placeholder(c));
    case Change(Set(chat, thread, id, now)) =>
      FiledUnderItsKey(s.data, OpKey(step.op), SessionEntry(chat, thread, id, now, now));
    case Change(Touch(_, _, now)) =>
      if OpKey(step.op) in s.data {
        FiledUnderItsKey(s.data, OpKey(step.op), s.data[OpKey(step.op)].(lastActive := now));
      }
    case _ =>
  }

  /** Every entry is filed under its own key in every reachable state. */
  lemma {:induction false} RunKeyed(s: Store, steps: seq<Step>)
    requires Keyed(s.data)
    ensures Keyed(Run(s, steps).data)
  {
    if steps != [] {
      RunKeyed(s, steps[..|steps| - 1]);
      TakeKeyed(Run(s, steps[..|steps| - 1]), steps[|steps| - 1]);
    }
  }

  // ---------------------------------------------------------------- what one step changes

  /** Two mappings that differ at most at `key`. */
  ghost predicate SameElsewhere(m: Sessions, after: Sessions, key: string) {
    forall k :: k != key ==> (k in after <==> k in m) && (k in m ==> after[k] == m[k])
  }

  /** A reset leaves no entry for its conversation, and every other one as it was. */
  lemma ResetRemoves(s: Store, chat: string, thread: Option<string>)
    ensures
      var after := Take(s, Change(Op.Reset(chat, thread)));
      && SessionKey(chat, thread) !in after.data
      && SameElsewhere(s.data, after.data, SessionKey(chat, thread))
      && after.waiting == s.waiting && after.file == s.file && after.readable == s.readable
  {
  }

  /** Setting an id files a new entry with both times set to now, and leaves every other entry as it was. */
  lemma SetFiles(s: Store, chat: string, thread: Option<string>, id: string, now: int)
    ensures
      var after := Take(s, Change(Set(chat, thread, id, now)));
      && SessionKey(chat, thread) in after.data
      && var e := after.data[SessionKey(chat, thread)];
      && e.chatId == chat && e.threadId == thread && e.sessionId == id && e.createdAt == now && e.lastActive == now
      && SameElsewhere(s.data, after.data, SessionKey(chat, thread))
      && after.waiting == s.waiting && after.file == s.file && after.readable == s.readable
  {
  }

  /** A touch moves the time of last activity of an entry that is there, and nothing else anywhere. */
  lemma TouchMovesOneTime(s: Store, chat: string, thread: Option<string>, now: int)
    ensures
      var key := SessionKey(chat, thread);
      var after := Take(s, Change(Op.Touch(chat, thread, now)));
      && (key in after.data <==> key in s.data)
      && (key in s.data ==>
            var was, e := s.data[key], after.data[key];
            && e.lastActive == now && e.createdAt == was.createdAt
            && e.chatId == was.chatId && e.threadId == was.threadId && e.sessionId == was.sessionId)
      && SameElsewhere(s.data, after.data, key)
      && after.waiting == s.waiting && after.file == s.file && after.readable == s.readable
  {
  }

  /** The look-up of get_or_create changes no mapping; it waits to insert exactly when it found nothing. */
  lemma LookOnlyLooks(s: Store, c: Creation)
    ensures
      var after := Take(s, Look(c));
      && after.data == s.data && after.file == s.file && after.readable == s.readable
      && (forall x :: after.waiting[x] == s.waiting[x] + if x == c && SessionKey(c.chat, c.thread) !in s.data then 1 else 0)
  {
  }

  /** The insertion files an entry without a session id, and one call waits less. */
  lemma InsertFiles(s: Store, c: Creation)
    requires c in s.waiting
    ensures
      var key := SessionKey(c.chat, c.thread);
      var after := Take(s, Insert(c));
      && key in after.data
      && var e := after.data[key];
      && e.chatId == c.chat && e.threadId == c.thread && e.sessionId == "" && e.createdAt == c.now && e.lastActive == c.now
      && SameElsewhere(s.data, after.data, key)
      && (forall x :: after.waiting[x] == s.waiting[x] - if x == c then 1 else 0)
      && after.file == s.file && after.readable == s.readable
  {
  }

  /** A step that gives a key an entry: setting its id, or inserting a placeholder. */
  predicate FilesKey(step: Step, key: string) {
    match step
    case Insert(c) => SessionKey(c.chat, c.thread) == key
    case Change(Set(chat, thread, _, _)) => SessionKey(chat, thread) == key
    case _ => false
  }

  lemma StepLeavesAbsent(s: Store, step: Step, key: string)
    requires key !in s.data && !FilesKey(step, key)
    ensures key !in Take(s, step).data
  {
  }

  lemma {:induction false} AbsentUntilFiled(s: Store, steps: seq<Step>, key: string)
    requires key !in s.data
    requires forall step :: step in steps ==> !FilesKey(step, key)
    ensures key !in Run(s, steps).data
  {
    if steps != [] {
      var front, last := steps[..|steps| - 1], steps[|steps| - 1];
      assert forall step :: step in front ==> step in steps;
      AbsentUntilFiled(s, front, key);
      assert last in steps;
      StepLeavesAbsent(Run(s, front), last, key);
    }
  }

  /**
   * A conversation that was reset stays unknown, whatever all threads do, until
   * one of them sets its id or inserts a placeholder for it; and the other
   * conversations do not notice the reset.
   */
  lemma ResetSticks(s: Store, steps: seq<Step>, chat: string, thread: Option<string>)
    requires forall step :: step in steps ==> !FilesKey(step, SessionKey(chat, thread))
    ensures Lookup(Run(s, [Change(Op.Reset(chat, thread))] + steps).data, SessionKey(chat, thread)) == None
    ensures forall key :: key != SessionKey(chat, thread) ==>
              Lookup(Run(s, [Change(Op.Reset(chat, thread))] + steps).data, key) == Lookup(Run(s, steps).data, key)
  {
    var reset := Change(Op.Reset(chat, thread));
    FirstAndThen(s, reset, steps);
    AbsentUntilFiled(Take(s, reset), steps, SessionKey(chat, thread));
    forall key | key != SessionKey(chat, thread)
      ensures Lookup(Run(s, [reset] + steps).data, key) == Lookup(Run(s, steps).data, key) {
      ConversationsAreIndependent(s, [reset] + steps, key);
      ConversationsAreIndependent(s, steps, key);
      KeepConcat(On(key), [reset], steps);
      assert Keep(On(key), [reset]) == [];
      assert [] + Keep(On(key), steps) == Keep(On(key), steps);
    }
  }

  // ---------------------------------------------------------------- conversations do not meet

  function On(key: string): Step -> bool {
    step => StepKey(step) == Some(key)
  }

  /** Two stores that hold the same about one key: its entry and the calls waiting to insert it. */
  ghost predicate Agree(s: Store, s': Store, key: string) {
    && Lookup(s.data, key) == Lookup(s'.data, key)
    && forall c {:trigger s.waiting[c]} {:trigger s'.waiting[c]} :: CreationKey(c) == key ==> s.waiting[c] == s'.waiting[c]
  }

  lemma OthersDoNotMatter(s: Store, s': Store, step: Step, key: string)
    requires Agree(s, s', key) && StepKey(step) != Some(key)
    ensures Agree(Take(s, step), s', key)
  {
  }

  lemma OwnLookAgrees(s: Store, s': Store, c: Creation)
    requires Agree(s, s', CreationKey(c))
    ensures Agree(Take(s, Look(c)), Take(s', Look(c)), CreationKey(c))
  {
    assert CreationKey(c) in s.data <==> CreationKey(c) in s'.data;
    assert s.waiting[c] == s'.waiting[c];
  }

  lemma OwnInsertAgrees(s: Store, s': Store, c: Creation)
    requires Agree(s, s', CreationKey(c))
    ensures Agree(Take(s, Insert(c)), Take(s', Insert(c)), CreationKey(c))
  {
    assert s.waiting[c] == s'.waiting[c];
    assert c in s.waiting <==> c in s'.waiting;
  }

  lemma OwnChangeAgrees(s: Store, s': Store, op: Op)
    requires Agree(s, s', OpKey(op))
    ensures Agree(Take(s, Change(op)), Take(s', Change(op)), OpKey(op))
  {
    assert OpKey(op) in s.data <==> OpKey(op) in s'.data;
  }

  lemma OwnStepsAgree(s: Store, s': Store, step: Step, key: string)
    requires Agree(s, s', key) && StepKey(step) == Some(key)
    ensures Agree(Take(s, step), Take(s', step), key)
  {
    match step
    case Look(c) => OwnLookAgrees(s, s', c);
    case Insert(c) => OwnInsertAgrees(s, s', c);
    case Change(op) => OwnChangeAgrees(s, s', op);
  }

  /** What a key holds after any run depends only on the steps about that key. */
  lemma {:induction false} ConversationsAreIndependent(s: Store, steps: seq<Step>, key: string)
    ensures Agree(Run(s, steps), Run(s, Keep(On(key), steps)), key)
  {
    if steps != [] {
      var front, last := steps[..|steps| - 1], steps[|steps| - 1];
      ConversationsAreIndependent(s, front, key);
      KeepSnoc(On(key), steps, |steps| - 1);
      assert steps[..|steps|] == steps;
      var kept := Keep(On(key), front);
      if StepKey(last) == Some(key) {
        RunSnoc(s, kept, last);
        OwnStepsAgree(Run(s, front), Run(s, kept), last, key);
      } else {
        assert kept + [] == kept;
        OthersDoNotMatter(Run(s, front), Run(s, kept), last, key);
      }
    }
  }

  // ---------------------------------------------------------------- a session id stays

  /** Some call of get_or_create found the key free and has yet to insert its placeholder. */
  ghost predicate SomeoneWaits(s: Store, key: string) {
    exists c :: c in s.waiting && CreationKey(c) == key
  }

  /** No step sets or resets the conversation. */
  ghost predicate LeavesAlone(steps: seq<Step>, key: string) {
    forall step :: step in steps && step.Change? && OpKey(step.op) == key ==> step.op.Touch?
  }

  ghost predicate HasSession(s: Store, key: string, id: string) {
    key in s.data && s.data[key].sessionId == id
  }

  lemma StepKeepsSession(s: Store, step: Step, key: string, id: string)
    requires HasSession(s, key, id) && !SomeoneWaits(s, key) && LeavesAlone([step], key)
    ensures HasSession(Take(s, step), key, id) && !SomeoneWaits(Take(s, step), key)
  {
    assert step in [step];
    forall c | c in Take(s, step).waiting ensures CreationKey(c) != key {
      assert c in s.waiting || (step.Look? && step.creation == c);
    }
  }

  lemma {:induction false} SessionSticks(s: Store, steps: seq<Step>, key: string, id: string)
    requires HasSession(s, key, id) && !SomeoneWaits(s, key) && LeavesAlone(steps, key)
    ensures HasSession(Run(s, steps), key, id) && !SomeoneWaits(Run(s, steps), key)
  {
    if steps != [] {
      var front, last := steps[..|steps| - 1], steps[|steps| - 1];
      assert forall step :: step in front ==> step in steps;
      SessionSticks(s, front, key, id);
      assert last in steps;
      StepKeepsSession(Run(s, front), last, key, id);
    }
  }

  /**
   * A session id just set is what the conversation gets until it is set again or
   * reset, whatever all threads do in between, exactly when no call of
   * get_or_create that had found the conversation unknown is still waiting to
   * insert its placeholder.
   */
  lemma SessionSticksExactlyWhen(s: Store, op: Op)
    requires op.Set? && op.id != ""
    ensures
      (forall steps :: LeavesAlone(steps, OpKey(op)) ==> HasSession(Run(Take(s, Change(op)), steps), OpKey(op), op.id))
      <==> !SomeoneWaits(s, OpKey(op))
  {
    var key, after := OpKey(op), Take(s, Change(op));
    if SomeoneWaits(s, key) {
      var c :| c in s.waiting && CreationKey(c) == key;
      var steps := [Insert(c)];
      RunOne(after, Insert(c));
      assert LeavesAlone(steps, key) && !HasSession(Run(after, steps), key, op.id);
    } else {
      forall steps | LeavesAlone(steps, key) ensures HasSession(Run(after, steps), key, op.id) {
        SessionSticks(after, steps, key, op.id);
      }
    }
  }

  /** What an undisturbed call of get_or_create makes of the mapping. */
  function Created(m: Sessions, c: Creation): Sessions {
    if CreationKey(c) in m then m else m[CreationKey(c) := Placeholder(c)]
  }

  /**
   * get_or_create is not atomic: its look-up found nothing, other threads did
   * `between`, and it inserts regardless. The mapping is that of a call made at
   * once at the end exactly when by then the key was still free or held that
   * very placeholder.
   */
  lemma OverlappingCreateExactlyWhen(s: Store, between: seq<Step>, c: Creation)
    requires CreationKey(c) !in s.data && c in Run(s, [Look(c)] + between).waiting
    ensures
      var before := Run(s, [Look(c)] + between).data;
      Run(s, [Look(c)] + between + [Insert(c)]).data == Created(before, c)
      <==> CreationKey(c) !in before || before[CreationKey(c)] == Placeholder(c)
  {
    var key := CreationKey(c);
    RunSnoc(s, [Look(c)] + between, Insert(c));
    var before := Run(s, [Look(c)] + between).data;
    var after := before[key := Placeholder(c)];
    assert after[key] == Placeholder(c);
    if key in before && before[key] == Placeholder(c) {
      assert after == before;
    }
  }

  /** A session id set between the two halves of a call is forgotten. */
  lemma OverlappingCreateForgets()
    ensures
      var c, op := Creation("chat", None, 2), Set("chat", None, "session", 1);
      var s := Store(map[], multiset{}, Missing, true);
      && HasSession(Run(s, [Look(c), Change(op)]), "chat", "session")
      && HasSession(Run(s, [Look(c), Change(op), Insert(c)]), "chat", "")
  {
    var c, op := Creation("chat", None, 2), Set("chat", None, "session", 1);
    var s := Store(map[], multiset{}, Missing, true);
    RunOne(s, Look(c));
    RunSnoc(s, [Look(c)], Change(op));
    assert [Look(c)] + [Change(op)] == [Look(c), Change(op)];
    RunSnoc(s, [Look(c), Change(op)], Insert(c));
    assert [Look(c), Change(op)] + [Insert(c)] == [Look(c), Change(op), Insert(c)];
  }

  // ---------------------------------------------------------------- the file over runs

  /** How many steps had been taken when the file was last replaced. */
  function LastPublished(s: Store, steps: seq<Step>): Option<nat> {
    if steps == [] then None
    else
      var front, last := steps[..|steps| - 1], steps[|steps| - 1];
      if last.Publish? && s.readable && Lists(Run(s, front).data, last.entries) then Some(|front|)
      else LastPublished(s, front)
  }

  /**
   * After any run the file is what was found, or it loads back as exactly the
   * mapping at the moment of the last successful save, whatever order the map
   * was listed in; a store that could not be read never replaces its file.
   */
  lemma {:induction false} FileIsTheLastPublished(s: Store, steps: seq<Step>)
    requires Keyed(s.data)
    ensures
      var at, file := LastPublished(s, steps), Run(s, steps).file;
      match at
      case None => file == s.file
      case Some(k) => k < |steps| && file.Whole? && LoadAll(file.content) == Run(s, steps[..k]).data
    ensures !s.readable ==> LastPublished(s, steps) == None
    ensures Run(s, steps).readable == s.readable
  {
    if steps != [] {
      var front, last := steps[..|steps| - 1], steps[|steps| - 1];
      FileIsTheLastPublished(s, front);
      RunKeyed(s, front);
      if last.Publish? && s.readable && Lists(Run(s, front).data, last.entries) {
        ReloadIsIdentity(Run(s, front).data, last.entries);
      } else if LastPublished(s, front).Some? {
        assert steps[..LastPublished(s, front).value] == front[..LastPublished(s, front).value];
      }
    }
  }

  // ---------------------------------------------------------------- replacing the file

  datatype IoKind = PermissionDenied | WouldBlock | Interrupted | OtherKind

  const PERSIST_RETRIES: nat := 20

  predicate Transient(kind: IoKind) {
    kind != OtherKind
  }

  /** The kinds a second attempt can clear. */
  lemma TransientKinds(kind: IoKind)
    ensures Transient(kind) <==> kind == PermissionDenied || kind == WouldBlock || kind == Interrupted
  {
  }

  /** Some attempt within the budget succeeds, and a second try could clear every failure before it. */
  ghost predicate Clears(outcome: nat -> Option<IoKind>) {
    exists n: nat :: n <= PERSIST_RETRIES && outcome(n).None? &&
      forall k: nat :: k < n ==> outcome(k).Some? && Transient(outcome(k).value)
  }

  /**
   * `outcome(n)` is what the n-th replacement attempt reports. It succeeds
   * exactly when one of the first 21 attempts does and every earlier one failed
   * in a way a second attempt can clear.
   */
  method PersistWithRetry(outcome: nat -> Option<IoKind>) returns (failure: Option<IoKind>, tries: nat)
    ensures 1 <= tries <= 21
    ensures failure == outcome(tries - 1)
    ensures forall k :: 0 <= k < tries - 1 ==> outcome(k).Some? && Transient(outcome(k).value)
    ensures failure.Some? && Transient(failure.value) ==> tries == 21
    ensures failure.None? <==> Clears(outcome)
  {
    var remaining := PERSIST_RETRIES;
    tries := 0;
    while true
      invariant 0 <= remaining <= PERSIST_RETRIES
      invariant tries == PERSIST_RETRIES - remaining
      invariant forall k: nat :: k < tries ==> outcome(k).Some? && Transient(outcome(k).value)
      decreases remaining
    {
      failure := outcome(tries);
      tries := tries + 1;
      if failure.None? {
        return;
      }
      if remaining == 0 || !Transient(failure.value) {
        return;
      }
      remaining := remaining - 1;
    }
  }

  // ---------------------------------------------------------------- the object

  /**
   * The store as one thread meets it. `between` is what all other threads do
   * while it holds no lock.
   */
  class SessionStore {
    var data: Sessions
    var waiting: multiset<Creation>
    var file: File<seq<SessionEntry>>
    var loadError: Option<string>

    ghost predicate Valid()
      reads this
    {
      Keyed(data)
    }

    function Now(): Store
      reads this
    {
      Store(data, waiting, file, loadError.None?)
    }

    constructor (file: File<seq<SessionEntry>>, unreadable: Option<string>)
      ensures Valid() && this.file == file && waiting == multiset{}
      ensures loadError.Some? <==> file.Partial? || (file.Whole? && unreadable.Some?)
      ensures data == if file.Whole? && unreadable.None? then LoadAll(file.content) else map[]
    {
      this.file, waiting := file, multiset{};
      data, loadError := map[], None;
      new;
      if file.Whole? && unreadable.None? {
        LoadFromDisk(file.content);
      } else if !file.Missing? {
        loadError := if unreadable.Some? then unreadable else Some("truncated");
      }
    }

    method LoadFromDisk(entries: seq<SessionEntry>)
      requires data == map[]
      modifies this`data
      ensures data == LoadAll(entries) && Valid()
    {
      for i := 0 to |entries|
        invariant data == LoadAll(entries[..i])
      {
        assert entries[..i + 1][..i] == entries[..i];
        data := data[EntryKey(entries[i]) := entries[i]];
      }
      assert entries[..|entries|] == entries;
      LoadedIsKeyed(entries);
    }

    /** Other threads run. */
    method Others(steps: seq<Step>)
      requires Valid()
      modifies this`data, this`waiting, this`file
      ensures Valid() && Now() == Run(old(Now()), steps)
    {
      RunKeyed(Now(), steps);
      FileIsTheLastPublished(Now(), steps);
      var after := Run(Now(), steps);
      data, waiting, file := after.data, after.waiting, after.file;
    }

    /** `data.values().cloned().collect()`, in whatever order the map yields its keys. */
    method Values() returns (entries: seq<SessionEntry>)
      requires Valid()
      ensures Lists(data, entries)
    {
      entries := [];
      var rest := data.Keys;
      while rest != {}
        invariant rest <= data.Keys
        invariant forall k :: k in data && k !in rest ==> data[k] in entries
        invariant forall e :: e in entries ==> EntryKey(e) in data && data[EntryKey(e)] == e
        decreases |rest|
      {
        var k :| k in rest;
        rest := rest - {k};
        entries := entries + [data[k]];
      }
    }

    /** A save either leaves the file alone or makes it one that loads back as exactly the mapping in memory. */
    method SaveToDisk(written: bool, outcome: nat -> Option<IoKind>) returns (r: Result<()>)
      requires Valid()
      modifies this`file
      ensures r.Failure? ==> file == old(file)
      ensures r.Success? ==> file.Whole? && LoadAll(file.content) == data
      ensures r.Success? <==> loadError.None? && written && Clears(outcome)
    {
      if loadError.Some? {
        return Failure("Refusing to overwrite unreadable session store");
      }
      var entries := Values();
      if !written {
        return Failure("cannot write the temporary file");
      }
      var failure, tries := PersistWithRetry(outcome);
      if failure.Some? {
        return Failure("cannot replace the session file");
      }
      file := Whole(entries);
      ReloadIsIdentity(data, entries);
      return Success(());
    }

    /** Others may insert what they looked up themselves, but not in this call's stead. */
    method GetOrCreate(chat: string, thread: Option<string>, now: int, between: seq<Step>) returns (id: string, isNew: bool)
      requires Valid()
      requires
        var c := Creation(chat, thread, now);
        CreationKey(c) !in data ==> c in Run(Now(), [Look(c)] + between).waiting
      modifies this`data, this`waiting, this`file
      ensures Valid()
      ensures isNew <==> SessionKey(chat, thread) !in old(data)
      ensures id == if isNew then "" else old(data)[SessionKey(chat, thread)].sessionId
      ensures
        var c := Creation(chat, thread, now);
        Now() == if isNew then Run(old(Now()), [Look(c)] + between + [Insert(c)]) else old(Now())
    {
      var c := Creation(chat, thread, now);
      var key := SessionKey(chat, thread);
      if key in data {
        return data[key].sessionId, false;
      }
      FirstAndThen(Now(), Look(c), between);
      RunSnoc(Now(), [Look(c)] + between, Insert(c));
      waiting := waiting + multiset{c};
      Others(between);
      InsertCreated(c);
      return "", true;
    }

    /** The second lock of get_or_create. */
    method InsertCreated(c: Creation)
      requires Valid() && c in waiting
      modifies this`data, this`waiting
      ensures Valid() && Now() == Take(old(Now()), Insert(c))
    {
      var entry := SessionEntry(c.chat, c.thread, "", c.now, c.now);
      FiledUnderItsKey(data, CreationKey(c), entry);
      data, waiting := data[CreationKey(c) := entry], waiting - multiset{c};
    }

    method SetSessionId(chat: string, thread: Option<string>, id: string, now: int, between: seq<Step>,
                        written: bool, outcome: nat -> Option<IoKind>)
      returns (saved: bool)
      requires Valid()
      modifies this`data, this`waiting, this`file
      ensures Valid()
      ensures
        var s := Run(old(Now()), [Change(Set(chat, thread, id, now))] + between);
        && data == s.data && waiting == s.waiting
        && if saved then file.Whole? && LoadAll(file.content) == data else file == s.file
      ensures saved <==> loadError.None? && written && Clears(outcome)
    {
      FirstAndThen(Now(), Change(Set(chat, thread, id, now)), between);
      data := data[SessionKey(chat, thread) := SessionEntry(chat, thread, id, now, now)];
      Others(between);
      var r := SaveToDisk(written, outcome);
      saved := r.Success?;
    }

    method Get(chat: string, thread: Option<string>) returns (id: Option<string>)
      requires Valid()
      ensures id.Some? <==> exists k :: k in data && EntryKey(data[k]) == SessionKey(chat, thread)
      ensures id.Some? ==> id.value == data[SessionKey(chat, thread)].sessionId
    {
      var key := SessionKey(chat, thread);
      return if key in data then Some(data[key].sessionId) else None;
    }

    method Reset(chat: string, thread: Option<string>, between: seq<Step>, written: bool, outcome: nat -> Option<IoKind>)
      returns (saved: bool)
      requires Valid()
      modifies this`data, this`waiting, this`file
      ensures Valid()
      ensures
        var s := Run(old(Now()), [Change(Op.Reset(chat, thread))] + between);
        && data == s.data && waiting == s.waiting
        && if saved then file.Whole? && LoadAll(file.content) == data else file == s.file
      ensures saved <==> loadError.None? && written && Clears(outcome)
      ensures (forall step :: step in between ==> !FilesKey(step, SessionKey(chat, thread))) ==> SessionKey(chat, thread) !in data
    {
      if forall step :: step in between ==> !FilesKey(step, SessionKey(chat, thread)) {
        ResetSticks(Now(), between, chat, thread);
      }
      FirstAndThen(Now(), Change(Op.Reset(chat, thread)), between);
      data := data - {SessionKey(chat, thread)};
      Others(between);
      var r := SaveToDisk(written, outcome);
      saved := r.Success?;
    }

    method Touch(chat: string, thread: Option<string>, now: int)
      requires Valid()
      modifies this`data
      ensures Valid() && Now() == Take(old(Now()), Change(Op.Touch(chat, thread, now)))
      ensures data.Keys == old(data).Keys
      ensures forall k :: k in data ==>
                && data[k].sessionId == old(data)[k].sessionId && data[k].createdAt == old(data)[k].createdAt
                && data[k].lastActive == if k == SessionKey(chat, thread) then now else old(data)[k].lastActive
    {
      var key := SessionKey(chat, thread);
      if key in data {
        data := data[key := data[key].(lastActive := now)];
      }
    }
  }
}
