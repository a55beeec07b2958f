/** The channel status board and its published snapshot (channels/src/status.rs). */
module StatusBoard {
  import opened Wrappers
  import opened Sequences

  datatype ChannelState = Disabled | Starting | Running | Error | Unsupported

  datatype ChannelStatus = ChannelStatus(
    state: Option<ChannelState>,
    uptimeSecs: Option<nat>,
    lastError: Option<string>,
    lastInbound: Option<int>,
    lastOutbound: Option<int>,
    counts: Counters)

  datatype Counters = Counters(inbound: nat, outbound: nat, duplicates: nat, rejected: nat, superseded: nat)

  type Statuses = map<string, ChannelStatus>

  datatype Inner = Inner(channels: Statuses, counters: map<string, Counters>)

  datatype Snapshot = Snapshot(updated: int, channels: Statuses)

  /** FLUSH_INTERVAL, in milliseconds. */
  const FLUSH_INTERVAL: nat := 2000

  const NO_COUNTS: Counters := Counters(0, 0, 0, 0, 0)
  const NO_STATUS: ChannelStatus := ChannelStatus(None, None, None, None, None, NO_COUNTS)

  // ---------------------------------------------------------------- what is recorded

  datatype Event =
    | State(channel: string, state: ChannelState, error: Option<string>)
    | Started(channel: string)
    | Inbound(channel: string, now: int)
    | Outbound(channel: string, now: int)
    | Duplicate(channel: string)
    | Rejected(channel: string)
    | Superseded(channel: string)

  function StatusOf(b: Inner, c: string): ChannelStatus {
    if c in b.channels then b.channels[c] else NO_STATUS
  }

  function CountersOf(b: Inner, c: string): Counters {
    if c in b.counters then b.counters[c] else NO_COUNTS
  }

  function Note(b: Inner, e: Event): Inner {
    var status, counters := StatusOf(b, e.channel), CountersOf(b, e.channel);
    match e
    case State(c, state, error) => b.(channels := b.channels[c := status.(state := Some(state), lastError := error)])
    case Started(c) =>
      b.(channels := b.channels[c := status.(state := Some(Running), lastError := None, uptimeSecs := Some(0))])
    case Inbound(c, now) =>
      Inner(b.channels[c := status.(lastInbound := Some(now))], b.counters[c := counters.(inbound := counters.inbound + 1)])
    case Outbound(c, now) =>
      Inner(b.channels[c := status.(lastOutbound := Some(now))], b.counters[c := counters.(outbound := counters.outbound + 1)])
    case Duplicate(c) => b.(counters := b.counters[c := counters.(duplicates := counters.duplicates + 1)])
    case Rejected(c) => b.(counters := b.counters[c := counters.(rejected := counters.rejected + 1)])
    case Superseded(c) => b.(counters := b.counters[c := counters.(superseded := counters.superseded + 1)])
  }

  function Replay(log: seq<Event>): Inner {
    if log == [] then Inner(map[], map[]) else Note(Replay(log[..|log| - 1]), log[|log| - 1])
  }

  function Merge(b: Inner, c: string): ChannelStatus {
    if c in b.counters then StatusOf(b, c).(counts := b.counters[c]) else StatusOf(b, c)
  }

  /** The published channels: the statuses with the counters filled in. */
  function Build(b: Inner): Statuses {
    map c | c in b.channels.Keys + b.counters.Keys :: Merge(b, c)
  }

  /** `build` half way: the counters of the channels in `rest` are still to be filled in. */
  ghost function Partly(b: Inner, rest: set<string>): Statuses {
    map c | c in b.channels.Keys + (b.counters.Keys - rest) :: if c in rest then StatusOf(b, c) else Merge(b, c)
  }

  lemma PartlyStep(b: Inner, rest: set<string>, c: string)
    requires c in rest && rest <= b.counters.Keys
    ensures
      var m := Partly(b, rest);
      Partly(b, rest - {c}) == m[c := (if c in m then m[c] else NO_STATUS).(counts := b.counters[c])]
  {
  }

  lemma PartlyEnds(b: Inner)
    ensures Partly(b, b.counters.Keys) == b.channels
    ensures Partly(b, {}) == Build(b)
  {
  }

  lemma ReplaySnoc(log: seq<Event>, e: Event, n: int)
    requires n <= |log|
    ensures Replay(log + [e]) == Note(Replay(log), e)
    ensures n >= 0 ==> (log + [e])[..n] == log[..n]
  {
    assert (log + [e])[..|log|] == log;
  }

  // ---------------------------------------------------------------- what the snapshot says of the log

  function InboundOn(c: string): Event -> bool {
    (e: Event) => e.Inbound? && e.channel == c
  }

  function OutboundOn(c: string): Event -> bool {
    (e: Event) => e.Outbound? && e.channel == c
  }

  function DuplicateOn(c: string): Event -> bool {
    (e: Event) => e.Duplicate? && e.channel == c
  }

  function RejectedOn(c: string): Event -> bool {
    (e: Event) => e.Rejected? && e.channel == c
  }

  function SupersededOn(c: string): Event -> bool {
    (e: Event) => e.Superseded? && e.channel == c
  }

  function TransitionOn(c: string): Event -> bool {
    (e: Event) => (e.State? || e.Started?) && e.channel == c
  }

  function StartedOn(c: string): Event -> bool {
    (e: Event) => e.Started? && e.channel == c
  }

  function Tally(p: Event -> bool, log: seq<Event>): nat {
    |Keep(p, log)|
  }

  function Latest(p: Event -> bool, log: seq<Event>): Option<Event> {
    var kept := Keep(p, log);
    if kept == [] then None else Some(kept[|kept| - 1])
  }

  lemma TallySnoc(p: Event -> bool, log: seq<Event>)
    requires log != []
    ensures Tally(p, log) == Tally(p, log[..|log| - 1]) + if p(log[|log| - 1]) then 1 else 0
    ensures Latest(p, log) == if p(log[|log| - 1]) then Some(log[|log| - 1]) else Latest(p, log[..|log| - 1])
  {
    KeepSnoc(p, log, |log| - 1);
    assert log[..|log|] == log;
  }

  /** The state and explanation the latest transition of a channel gave it. */
  function StateAfter(e: Option<Event>): (Option<ChannelState>, Option<string>) {
    match e
    case Some(State(_, state, error)) => (Some(state), error)
    case Some(Started(_)) => (Some(Running), None)
    case _ => (None, None)
  }

  function TimeOf(e: Option<Event>): Option<int> {
    match e
    case Some(Inbound(_, now)) => Some(now)
    case Some(Outbound(_, now)) => Some(now)
    case _ => None
  }

  ghost predicate CountsAreTallies(counts: Counters, log: seq<Event>, c: string) {
    && counts.inbound == Tally(InboundOn(c), log)
    && counts.outbound == Tally(OutboundOn(c), log)
    && counts.duplicates == Tally(DuplicateOn(c), log)
    && counts.rejected == Tally(RejectedOn(c), log)
    && counts.superseded == Tally(SupersededOn(c), log)
  }

  lemma NoteCounts(b: Inner, e: Event, c: string)
    ensures
      var before, after := CountersOf(b, c), CountersOf(Note(b, e), c);
      && after.inbound == before.inbound + (if InboundOn(c)(e) then 1 else 0)
      && after.outbound == before.outbound + (if OutboundOn(c)(e) then 1 else 0)
      && after.duplicates == before.duplicates + (if DuplicateOn(c)(e) then 1 else 0)
      && after.rejected == before.rejected + (if RejectedOn(c)(e) then 1 else 0)
      && after.superseded == before.superseded + (if SupersededOn(c)(e) then 1 else 0)
    ensures StatusOf(Note(b, e), c).counts == StatusOf(b, c).counts
  {
  }

  lemma {:induction false} ReplayCounts(log: seq<Event>, c: string)
    ensures CountsAreTallies(CountersOf(Replay(log), c), log, c)
    ensures StatusOf(Replay(log), c).counts == NO_COUNTS
  {
    if log != [] {
      ReplayCounts(log[..|log| - 1], c);
      NoteCounts(Replay(log[..|log| - 1]), log[|log| - 1], c);
      TallySnoc(InboundOn(c), log);
      TallySnoc(OutboundOn(c), log);
      TallySnoc(DuplicateOn(c), log);
      TallySnoc(RejectedOn(c), log);
      TallySnoc(SupersededOn(c), log);
    }
  }

  lemma NoteLatest(b: Inner, e: Event, c: string)
    ensures
      var before, after := StatusOf(b, c), StatusOf(Note(b, e), c);
      && after.lastInbound == (if InboundOn(c)(e) then Some(e.now) else before.lastInbound)
      && after.lastOutbound == (if OutboundOn(c)(e) then Some(e.now) else before.lastOutbound)
      && (after.state, after.lastError) == (if TransitionOn(c)(e) then StateAfter(Some(e)) else (before.state, before.lastError))
      && after.uptimeSecs == (if StartedOn(c)(e) then Some(0) else before.uptimeSecs)
  {
  }

  lemma {:induction false} ReplayLatest(log: seq<Event>, c: string)
    ensures
      var status := StatusOf(Replay(log), c);
      && status.lastInbound == TimeOf(Latest(InboundOn(c), log))
      && status.lastOutbound == TimeOf(Latest(OutboundOn(c), log))
      && (status.state, status.lastError) == StateAfter(Latest(TransitionOn(c), log))
      && status.uptimeSecs == (if Tally(StartedOn(c), log) > 0 then Some(0) else None)
  {
    if log != [] {
      ReplayLatest(log[..|log| - 1], c);
      NoteLatest(Replay(log[..|log| - 1]), log[|log| - 1], c);
      TallySnoc(InboundOn(c), log);
      TallySnoc(OutboundOn(c), log);
      TallySnoc(TransitionOn(c), log);
      TallySnoc(StartedOn(c), log);
    }
  }

  lemma {:induction false} ReplayMentions(log: seq<Event>, c: string)
    ensures c in Build(Replay(log)) <==> exists e :: e in log && e.channel == c
  {
    if log != [] {
      var front, last := log[..|log| - 1], log[|log| - 1];
      ReplayMentions(front, c);
      assert log == front + [last];
      if last.channel == c {
        assert last in log;
      }
    }
  }

  /**
   * The snapshot tells the log. A channel is listed exactly when something was
   * recorded about it; each published count is the number of such events; the
   * times are those of the latest messages; the state and its explanation are
   * those of the latest transition; an uptime, of zero, is there once it started.
   */
  lemma SnapshotTellsTheLog(log: seq<Event>, c: string)
    ensures c in Build(Replay(log)) <==> exists e :: e in log && e.channel == c
    ensures c in Build(Replay(log)) ==>
              var status := Build(Replay(log))[c];
              && CountsAreTallies(status.counts, log, c)
              && status.lastInbound == TimeOf(Latest(InboundOn(c), log))
              && status.lastOutbound == TimeOf(Latest(OutboundOn(c), log))
              && (status.state, status.lastError) == StateAfter(Latest(TransitionOn(c), log))
              && status.uptimeSecs == (if Tally(StartedOn(c), log) > 0 then Some(0) else None)
  {
    ReplayMentions(log, c);
    ReplayCounts(log, c);
    ReplayLatest(log, c);
  }

  // ---------------------------------------------------------------- the same, by positions in the log

  // Where the log has an event of each kind for a channel.

  ghost function InboundAt(log: seq<Event>, c: string): set<int> {
    set i | 0 <= i < |log| && log[i].Inbound? && log[i].channel == c
  }

  ghost function OutboundAt(log: seq<Event>, c: string): set<int> {
    set i | 0 <= i < |log| && log[i].Outbound? && log[i].channel == c
  }

  ghost function DuplicateAt(log: seq<Event>, c: string): set<int> {
    set i | 0 <= i < |log| && log[i].Duplicate? && log[i].channel == c
  }

  ghost function RejectedAt(log: seq<Event>, c: string): set<int> {
    set i | 0 <= i < |log| && log[i].Rejected? && log[i].channel == c
  }

  ghost function SupersededAt(log: seq<Event>, c: string): set<int> {
    set i | 0 <= i < |log| && log[i].Superseded? && log[i].channel == c
  }

  /** Each published count is the number of positions of the log with such an event of the channel. */
  lemma CountsAreCardinalities(log: seq<Event>, c: string)
    requires c in Build(Replay(log))
    ensures
      var counts := Build(Replay(log))[c].counts;
      && counts.inbound == |InboundAt(log, c)|
      && counts.outbound == |OutboundAt(log, c)|
      && counts.duplicates == |DuplicateAt(log, c)|
      && counts.rejected == |RejectedAt(log, c)|
      && counts.superseded == |SupersededAt(log, c)|
  {
    SnapshotTellsTheLog(log, c);
    KeptPositions(InboundOn(c), log, InboundAt(log, c));
    KeptPositions(OutboundOn(c), log, OutboundAt(log, c));
    KeptPositions(DuplicateOn(c), log, DuplicateAt(log, c));
    KeptPositions(RejectedOn(c), log, RejectedAt(log, c));
    KeptPositions(SupersededOn(c), log, SupersededAt(log, c));
  }

  /** The latest event of a kind is the one behind which there is none. */
  lemma {:induction false} LatestIs(p: Event -> bool, log: seq<Event>, k: nat)
    requires k < |log| && p(log[k]) && forall j :: k < j < |log| ==> !p(log[j])
    ensures Latest(p, log) == Some(log[k])
  {
    TallySnoc(p, log);
    if k < |log| - 1 {
      LatestIs(p, log[..|log| - 1], k);
    }
  }

  lemma NoneYet(p: Event -> bool, log: seq<Event>)
    requires forall j :: 0 <= j < |log| ==> !p(log[j])
    ensures Latest(p, log) == None && Tally(p, log) == 0
  {
    KeepNothing(p, log);
  }

  lemma SomeYet(p: Event -> bool, log: seq<Event>, k: nat)
    requires k < |log| && p(log[k])
    ensures Tally(p, log) > 0
  {
    KeepMembers(p, log);
    assert log[k] in Keep(p, log);
  }

  /** Event `k` is the last of the log that changes the state of its channel. */
  ghost predicate LastTransition(log: seq<Event>, k: nat) {
    && k < |log| && (log[k].State? || log[k].Started?)
    && forall j :: k < j < |log| && log[j].channel == log[k].channel ==> !log[j].State? && !log[j].Started?
  }

  /** The published state and explanation are those of the last transition; a start runs, with nothing to explain. */
  lemma LastTransitionShows(log: seq<Event>, k: nat)
    requires LastTransition(log, k)
    ensures log[k].channel in Build(Replay(log))
    ensures
      var status := Build(Replay(log))[log[k].channel];
      && (log[k].State? ==> status.state == Some(log[k].state) && status.lastError == log[k].error)
      && (log[k].Started? ==> status.state == Some(Running) && status.lastError == None)
  {
    assert log[k] in log;
    SnapshotTellsTheLog(log, log[k].channel);
    LatestIs(TransitionOn(log[k].channel), log, k);
  }

  /** The published times are those of the last message in and the last message out. */
  lemma LastMessageShows(log: seq<Event>, k: nat)
    requires k < |log|
    ensures log[k].channel in Build(Replay(log))
    ensures
      var status := Build(Replay(log))[log[k].channel];
      && (log[k].Inbound? && (forall j :: k < j < |log| && log[j].Inbound? ==> log[j].channel != log[k].channel) ==>
            status.lastInbound == Some(log[k].now))
      && (log[k].Outbound? && (forall j :: k < j < |log| && log[j].Outbound? ==> log[j].channel != log[k].channel) ==>
            status.lastOutbound == Some(log[k].now))
      && (log[k].Started? ==> status.uptimeSecs == Some(0))
  {
    var c := log[k].channel;
    assert log[k] in log;
    SnapshotTellsTheLog(log, c);
    if log[k].Inbound? && forall j :: k < j < |log| && log[j].Inbound? ==> log[j].channel != c {
      LatestIs(InboundOn(c), log, k);
    }
    if log[k].Outbound? && forall j :: k < j < |log| && log[j].Outbound? ==> log[j].channel != c {
      LatestIs(OutboundOn(c), log, k);
    }
    if log[k].Started? {
      SomeYet(StartedOn(c), log, k);
    }
  }

  /** What never happened on a channel leaves its field of the snapshot empty. */
  lemma WhatNeverHappened(log: seq<Event>, c: string)
    requires c in Build(Replay(log))
    ensures
      var status := Build(Replay(log))[c];
      && ((forall j :: 0 <= j < |log| && log[j].channel == c ==> !log[j].Inbound?) ==> status.lastInbound == None)
      && ((forall j :: 0 <= j < |log| && log[j].channel == c ==> !log[j].Outbound?) ==> status.lastOutbound == None)
      && ((forall j :: 0 <= j < |log| && log[j].channel == c ==> !log[j].Started?) ==> status.uptimeSecs == None)
      && ((forall j :: 0 <= j < |log| && log[j].channel == c ==> !log[j].State? && !log[j].Started?) ==>
            status.state == None && status.lastError == None)
  {
    SnapshotTellsTheLog(log, c);
    if forall j :: 0 <= j < |log| && log[j].channel == c ==> !log[j].Inbound? {
      NoneYet(InboundOn(c), log);
    }
    if forall j :: 0 <= j < |log| && log[j].channel == c ==> !log[j].Outbound? {
      NoneYet(OutboundOn(c), log);
    }
    if forall j :: 0 <= j < |log| && log[j].channel == c ==> !log[j].Started? {
      NoneYet(StartedOn(c), log);
    }
    if forall j :: 0 <= j < |log| && log[j].channel == c ==> !log[j].State? && !log[j].Started? {
      NoneYet(TransitionOn(c), log);
    }
  }

  lemma {:induction false} TallyPrefix(p: Event -> bool, log: seq<Event>, n: nat)
    requires n <= |log|
    ensures Tally(p, log[..n]) <= Tally(p, log)
  {
    KeepConcat(p, log[..n], log[n..]);
    assert log == log[..n] + log[n..];
  }

  /** Published counts never fall: a snapshot of a longer log counts at least as much. */
  lemma CountsNeverFall(log: seq<Event>, n: nat, c: string)
    requires n <= |log| && c in Build(Replay(log[..n]))
    ensures c in Build(Replay(log))
    ensures
      var before, after := Build(Replay(log[..n]))[c].counts, Build(Replay(log))[c].counts;
      && before.inbound <= after.inbound && before.outbound <= after.outbound && before.duplicates <= after.duplicates
      && before.rejected <= after.rejected && before.superseded <= after.superseded
  {
    SnapshotTellsTheLog(log[..n], c);
    SnapshotTellsTheLog(log, c);
    var e :| e in log[..n] && e.channel == c;
    assert e in log;
    TallyPrefix(InboundOn(c), log, n);
    TallyPrefix(OutboundOn(c), log, n);
    TallyPrefix(DuplicateOn(c), log, n);
    TallyPrefix(RejectedOn(c), log, n);
    TallyPrefix(SupersededOn(c), log, n);
  }

  // ---------------------------------------------------------------- other threads

  /** What another thread does under one hold of the lock. */
  datatype Act = Records(e: Event) | Flushes(io: SaveIo, unix: int, now: int)

  function EventsOf(acts: seq<Act>): seq<Event> {
    if acts == [] then []
    else EventsOf(acts[..|acts| - 1]) + (if acts[|acts| - 1].Records? then [acts[|acts| - 1].e] else [])
  }

  /** No other thread publishes meanwhile. */
  ghost predicate NobodyPublishes(acts: seq<Act>) {
    forall act :: act in acts ==> act.Records? || act.io != Saved
  }

  // ---------------------------------------------------------------- the object

  class StatusBoard {
    var channels: Statuses
    var counters: map<string, Counters>
    var dirty: bool
    var lastFlush: int
    var file: File<Snapshot>
    var temporary: File<Snapshot>

    /** Everything recorded since the process started, and how much of it the file shows (-1: nothing published yet). */
    ghost var log: seq<Event>
    ghost var published: int

    ghost predicate Valid()
      reads this
    {
      && Inner(channels, counters) == Replay(log)
      && -1 <= published <= |log|
      && (published >= 0 ==> file.Whole? && file.content.channels == Build(Replay(log[..published])))
      && (!dirty ==> log == [] || published == |log|)
    }

    /** The promise of the dirty flag: when it is down, nothing was recorded or the file shows everything recorded. */
    lemma CleanMeansPublished()
      requires Valid() && !dirty && log != []
      ensures file.Whole? && file.content.channels == Build(Inner(channels, counters))
    {
      assert log[..|log|] == log;
    }

    constructor (file: File<Snapshot>, temporary: File<Snapshot>, now: int)
      ensures Valid() && log == [] && published == -1 && !dirty && this.file == file
      ensures lastFlush == now - 2000
    {
      channels, counters, dirty := map[], map[], false;
      lastFlush := now - FLUSH_INTERVAL;
      this.file, this.temporary := file, temporary;
      log, published := [], -1;
    }

    /** `build`: merge the counters into a copy of the statuses, one channel after another. */
    method BuildSnapshot(unix: int) returns (s: Snapshot)
      ensures s == Snapshot(unix, Build(Inner(channels, counters)))
    {
      var merged := channels;
      var rest := counters.Keys;
      ghost var inner := Inner(channels, counters);
      PartlyEnds(inner);
      while rest != {}
        invariant rest <= counters.Keys
        invariant merged == Partly(inner, rest)
        decreases |rest|
      {
        var c :| c in rest;
        PartlyStep(inner, rest, c);
        merged := merged[c := (if c in merged then merged[c] else NO_STATUS).(counts := counters[c])];
        rest := rest - {c};
      }
      return Snapshot(unix, merged);
    }

    method Write(snapshot: Snapshot, io: SaveIo) returns (r: Result<()>)
      modifies this`file, this`temporary
      ensures r.Success? <==> io == Saved
      ensures file == if r.Success? then Whole(snapshot) else old(file)
    {
      if io == NoDirectory {
        return Failure("create_dir_all");
      }
      if io == NotWritten {
        temporary := Partial;
        return Failure("write");
      }
      temporary := Whole(snapshot);
      if io == NotRenamed {
        return Failure("rename");
      }
      file, temporary := temporary, Missing;
      return Success(());
    }

    /** Publish now. A failed write leaves the file and the dirty flag as they were. */
    method Flush(io: SaveIo, unix: int, now: int) returns (r: Result<()>)
      requires Valid()
      modifies this`file, this`temporary, this`dirty, this`lastFlush, this`published
      ensures Valid()
      ensures r.Success? <==> io == Saved
      ensures r.Success? ==> !dirty && published == |log| && lastFlush == now
      ensures r.Success? ==> file == Whole(Snapshot(unix, Build(Inner(channels, counters))))
      ensures r.Failure? ==> file == old(file) && dirty == old(dirty)
      ensures r.Failure? ==> published == old(published) && lastFlush == old(lastFlush)
    {
      var snapshot := BuildSnapshot(unix);
      r := Write(snapshot, io);
      if r.Success? {
        dirty, lastFlush := false, now;
        published := |log|;
        assert log[..|log|] == log;
      }
    }

    /** The periodic flush: it writes exactly when something changed and two seconds have passed since the last write. */
    method FlushIfDue(io: SaveIo, unix: int, now: int) returns (r: Result<bool>)
      requires Valid()
      modifies this`file, this`temporary, this`dirty, this`lastFlush, this`published
      ensures Valid() && published >= old(published)
      ensures
        var due := old(dirty) && now - old(lastFlush) >= 2000;
        r == if !due then Success(false) else if io == Saved then Success(true) else r
      ensures r.Failure? <==> old(dirty) && now - old(lastFlush) >= 2000 && io != Saved
      ensures r == Success(true) ==> !dirty && published == |log| && lastFlush == now
                                     && file == Whole(Snapshot(unix, Build(Inner(channels, counters))))
      ensures r != Success(true) ==> dirty == old(dirty) && file == old(file) && lastFlush == old(lastFlush)
    {
      if !dirty || now - lastFlush < FLUSH_INTERVAL {
        return Success(false);
      }
      var done := Flush(io, unix, now);
      if done.Failure? {
        return Failure(done.error);
      }
      return Success(true);
    }

    method CountInbound(channel: string, now: int)
      requires Valid()
      modifies this`channels, this`counters, this`dirty, this`log
      ensures Valid() && dirty && log == old(log) + [Inbound(channel, now)]
    {
      var tally := if channel in counters then counters[channel] else NO_COUNTS;
      counters := counters[channel := tally.(inbound := tally.inbound + 1)];
      var status := if channel in channels then channels[channel] else NO_STATUS;
      channels := channels[channel := status.(lastInbound := Some(now))];
      dirty := true;
      assert Inner(channels, counters) == Note(Inner(old(channels), old(counters)), Inbound(channel, now));
      ReplaySnoc(log, Inbound(channel, now), published);
      log := log + [Inbound(channel, now)];
    }

    method CountOutbound(channel: string, now: int)
      requires Valid()
      modifies this`channels, this`counters, this`dirty, this`log
      ensures Valid() && dirty && log == old(log) + [Outbound(channel, now)]
    {
      var tally := if channel in counters then counters[channel] else NO_COUNTS;
      counters := counters[channel := tally.(outbound := tally.outbound + 1)];
      var status := if channel in channels then channels[channel] else NO_STATUS;
      channels := channels[channel := status.(lastOutbound := Some(now))];
      dirty := true;
      assert Inner(channels, counters) == Note(Inner(old(channels), old(counters)), Outbound(channel, now));
      ReplaySnoc(log, Outbound(channel, now), published);
      log := log + [Outbound(channel, now)];
    }

    method CountDuplicate(channel: string)
      requires Valid()
      modifies this`counters, this`dirty, this`log
      ensures Valid() && dirty && log == old(log) + [Duplicate(channel)]
    {
      var tally := if channel in counters then counters[channel] else NO_COUNTS;
      counters := counters[channel := tally.(duplicates := tally.duplicates + 1)];
      dirty := true;
      ReplaySnoc(log, Duplicate(channel), published);
      log := log + [Duplicate(channel)];
    }

    method CountRejected(channel: string)
      requires Valid()
      modifies this`counters, this`dirty, this`log
      ensures Valid() && dirty && log == old(log) + [Rejected(channel)]
    {
      var tally := if channel in counters then counters[channel] else NO_COUNTS;
      counters := counters[channel := tally.(rejected := tally.rejected + 1)];
      dirty := true;
      ReplaySnoc(log, Rejected(channel), published);
      log := log + [Rejected(channel)];
    }

    method CountSuperseded(channel: string)
      requires Valid()
      modifies this`counters, this`dirty, this`log
      ensures Valid() && dirty && log == old(log) + [Superseded(channel)]
    {
      var tally := if channel in counters then counters[channel] else NO_COUNTS;
      counters := counters[channel := tally.(superseded := tally.superseded + 1)];
      dirty := true;
      ReplaySnoc(log, Superseded(channel), published);
      log := log + [Superseded(channel)];
    }

    method RecordAny(e: Event)
      requires Valid()
      modifies this`channels, this`counters, this`dirty, this`log
      ensures Valid() && dirty && log == old(log) + [e]
    {
      var after := Note(Inner(channels, counters), e);
      channels, counters, dirty := after.channels, after.counters, true;
      ReplaySnoc(log, e, published);
      log := log + [e];
    }

    /** Other threads record and publish. */
    method Others(acts: seq<Act>)
      requires Valid()
      modifies this
      ensures Valid() && log == old(log) + EventsOf(acts) && published >= old(published)
      ensures NobodyPublishes(acts) ==> file == old(file) && (old(dirty) ==> dirty)
    {
      for i := 0 to |acts|
        invariant Valid() && log == old(log) + EventsOf(acts[..i]) && published >= old(published)
        invariant NobodyPublishes(acts) ==> file == old(file) && (old(dirty) ==> dirty)
      {
        assert acts[..i + 1][..i] == acts[..i];
        assert acts[i] in acts;
        match acts[i] {
          case Records(e) =>
            ConcatAssociates(old(log), EventsOf(acts[..i]), [e]);
            RecordAny(e);
          case Flushes(io, unix, now) =>
            var _ := Flush(io, unix, now);
        }
      }
      assert acts[..|acts|] == acts;
    }

    /**
     * A change of state is recorded under one hold of the lock and published
     * under the next; `between` is what other threads do in between. If the
     * publication fails the change is still recorded, and the board stays dirty
     * unless someone else published it.
     */
    method SetState(channel: string, state: ChannelState, error: Option<string>, between: seq<Act>, io: SaveIo, unix: int, now: int)
      requires Valid()
      modifies this
      ensures Valid() && log == old(log) + [State(channel, state, error)] + EventsOf(between)
      ensures io == Saved ==> !dirty && published == |log| && file == Whole(Snapshot(unix, Build(Replay(log))))
      ensures io != Saved && NobodyPublishes(between) ==> dirty && file == old(file)
    {
      var status := if channel in channels then channels[channel] else NO_STATUS;
      channels := channels[channel := status.(state := Some(state), lastError := error)];
      dirty := true;
      ReplaySnoc(log, State(channel, state, error), published);
      log := log + [State(channel, state, error)];
      Others(between);
      var r := Flush(io, unix, now);
    }

    method SetStarted(channel: string, between: seq<Act>, io: SaveIo, unix: int, now: int)
      requires Valid()
      modifies this
      ensures Valid() && log == old(log) + [Started(channel)] + EventsOf(between)
      ensures io == Saved ==> !dirty && published == |log| && file == Whole(Snapshot(unix, Build(Replay(log))))
      ensures io != Saved && NobodyPublishes(between) ==> dirty && file == old(file)
    {
      var status := if channel in channels then channels[channel] else NO_STATUS;
      channels := channels[channel := status.(state := Some(Running), lastError := None, uptimeSecs := Some(0))];
      dirty := true;
      ReplaySnoc(log, Started(channel), published);
      log := log + [Started(channel)];
      Others(between);
      var r := Flush(io, unix, now);
    }
  }
}
