/**
 * Rebuilding provider messages from a journal
 * (agent/examples/compaction_probe.rs, `messages_from_records`).
 */
module Rebuild {
  import opened Wrappers
  import opened Sequences
  import Orders

  /** A JSON field that is meant to be an integer. */
  datatype Field = Absent | NotAnInteger | Integer(n: int)

  /** The fields `messages_from_records` reads; a missing or ill-typed text field is None. */
  datatype Record = Record(
    position: Field, order: Field,
    id: Option<string>, kind: Option<string>, role: Option<string>,
    call: Option<string>, tool: Option<string>, path: Option<string>,
    text: Option<string>, error: Option<bool>)

  datatype Block =
    | Text(body: string)
    | ToolCall(id: string, tool: string, path: Option<string>)
    | ToolResult(call: string, content: string, isError: bool)

  /** `source` is the journal entry id carried in the metadata; empty when there is none. */
  datatype Message = Message(role: string, content: seq<Block>, source: string)

  /** A parsed record: its position and its single block. */
  datatype Entry = Entry(position: int, role: string, block: Block, source: string)

  /** One collected tool result. */
  datatype Answer = Answer(call: string, content: string, source: string, isError: bool)

  // ---------------------------------------------------------------- parsing one record

  function PositionOf(r: Record): int {
    var field := if r.position.Absent? then r.order else r.position;
    if field.Integer? then field.n else 0
  }

  function Parse(r: Record): Option<Entry> {
    if r.id.None? || r.kind.None? then None
    else if r.kind.value != "tool_result" && r.role.None? then None
    else
      var role := if r.kind.value == "tool_result" then "tool" else r.role.value;
      var at := PositionOf(r);
      if r.kind.value == "tool_call" then
        if r.call.None? then None
        else Some(Entry(at, role, ToolCall(r.call.value, if r.tool.Some? then r.tool.value else "read", r.path), r.id.value))
      else if r.kind.value == "tool_result" then
        if r.call.None? || r.text.None? then None
        else Some(Entry(at, role, ToolResult(r.call.value, r.text.value, r.error == Some(true)), r.id.value))
      else
        if r.text.None? then None
        else Some(Entry(at, role, Text(r.text.value), r.id.value))
  }

  function ParseAll(rs: seq<Record>): seq<Entry> {
    if rs == [] then []
    else
      var before := ParseAll(rs[..|rs| - 1]);
      var last := Parse(rs[|rs| - 1]);
      if last.Some? then before + [last.value] else before
  }

  // ---------------------------------------------------------------- grouping and collecting

  type Group = g: seq<Entry> | |g| > 0 witness [Entry(0, "", Text(""), "")]

  /** Consecutive entries of one position form a group. */
  function Groups(es: seq<Entry>): seq<Group> {
    if es == [] then []
    else
      var gs := Groups(es[..|es| - 1]);
      var e := es[|es| - 1];
      if gs != [] && gs[|gs| - 1][0].position == e.position
      then gs[..|gs| - 1] + [gs[|gs| - 1] + [e]]
      else gs + [[e]]
  }

  /** The result an entry carries, if it is one. */
  function ResultsOf(e: Entry): seq<Answer> {
    if e.block.ToolResult? then [Answer(e.block.call, e.block.content, e.source, e.block.isError)] else []
  }

  /** Every tool result, in arrival order. */
  function AllResults(es: seq<Entry>): seq<Answer> {
    if es == [] then [] else AllResults(es[..|es| - 1]) + ResultsOf(es[|es| - 1])
  }

  function ForCall(id: string): Answer -> bool {
    (a: Answer) => a.call == id
  }

  /** `m` maps every call id that has results to those results, in arrival order. */
  ghost predicate Collects(m: map<string, seq<Answer>>, all: seq<Answer>) {
    && (forall id :: id in m <==> Keep(ForCall(id), all) != [])
    && (forall id :: id in m ==> m[id] == Keep(ForCall(id), all))
  }

  // ---------------------------------------------------------------- turns

  datatype Turn = Turn(role: string, source: string, text: string, calls: seq<Block>)

  function TextsOf(es: seq<Entry>): seq<string> {
    if es == [] then []
    else TextsOf(es[..|es| - 1]) + (if es[|es| - 1].block.Text? then [es[|es| - 1].block.body] else [])
  }

  function CallsOf(es: seq<Entry>): (calls: seq<Block>)
    ensures forall i :: 0 <= i < |calls| ==> calls[i].ToolCall?
  {
    if es == [] then []
    else CallsOf(es[..|es| - 1]) + (if es[|es| - 1].block.ToolCall? then [es[|es| - 1].block] else [])
  }

  function JoinLines(texts: seq<string>): string {
    if texts == [] then ""
    else if |texts| == 1 then texts[0]
    else JoinLines(texts[..|texts| - 1]) + "\n" + texts[|texts| - 1]
  }

  /** The turn a group speaks, unless a tool leads it or it says nothing. */
  function TurnsOf(g: Group): seq<Turn> {
    if g[0].role == "tool" || (TextsOf(g) == [] && CallsOf(g) == []) then []
    else [Turn(g[0].role, g[0].source, JoinLines(TextsOf(g)), CallsOf(g))]
  }

  function AllTurns(gs: seq<Group>): (turns: seq<Turn>)
    ensures forall i :: 0 <= i < |turns| ==> turns[i].role != "tool" && forall k :: 0 <= k < |turns[i].calls| ==> turns[i].calls[k].ToolCall?
  {
    if gs == [] then [] else AllTurns(gs[..|gs| - 1]) + TurnsOf(gs[|gs| - 1])
  }

  // ---------------------------------------------------------------- emitting

  function ToolMessage(a: Answer): Message {
    Message("tool", [ToolResult(a.call, a.content, a.isError)], a.source)
  }

  function ToolMessages(answers: seq<Answer>): seq<Message> {
    seq(|answers|, i requires 0 <= i < |answers| => ToolMessage(answers[i]))
  }

  type Pool = map<string, seq<Answer>>

  /** Matching the first `k` calls of a turn against the pool: what is emitted, and the pool that is left. */
  datatype Match = Match(calls: seq<Block>, answers: seq<Answer>, pool: Pool)

  function MatchCalls(calls: seq<Block>, pool: Pool): Match {
    if calls == [] then Match([], [], pool)
    else
      var m := MatchCalls(calls[..|calls| - 1], pool);
      var c := calls[|calls| - 1];
      if c.ToolCall? && c.id in m.pool
      then Match(m.calls + [c], m.answers + m.pool[c.id], m.pool - {c.id})
      else m
  }

  function TextBlock(text: string): seq<Block> {
    if text == "" then [] else [Text(text)]
  }

  function Content(t: Turn, pool: Pool): seq<Block> {
    TextBlock(t.text) + MatchCalls(t.calls, pool).calls
  }

  function Speaker(t: Turn, pool: Pool): seq<Message> {
    if Content(t, pool) == [] then [] else [Message(t.role, Content(t, pool), t.source)]
  }

  /** The speaker, when it has anything to say, and the answers to its calls. */
  function Exchange(t: Turn, pool: Pool): seq<Message> {
    Speaker(t, pool) + ToolMessages(MatchCalls(t.calls, pool).answers)
  }

  datatype Emission = Emission(messages: seq<Message>, pool: Pool)

  function Emit(turns: seq<Turn>, pool: Pool): Emission {
    if turns == [] then Emission([], pool)
    else
      var before := Emit(turns[..|turns| - 1], pool);
      var t := turns[|turns| - 1];
      Emission(before.messages + Exchange(t, before.pool), MatchCalls(t.calls, before.pool).pool)
  }

  // ---------------------------------------------------------------- the shape a provider requires

  predicate IsTool(m: Message) {
    m.role == "tool"
  }

  function CallIds(content: seq<Block>): seq<string> {
    if content == [] then []
    else CallIds(content[..|content| - 1]) + (if content[|content| - 1].ToolCall? then [content[|content| - 1].id] else [])
  }

  /** Message `i` answers a call held by message `j`, with nothing but tool messages in between. */
  ghost predicate AnswersFrom(ms: seq<Message>, j: nat, i: nat, id: string) {
    && j < i < |ms|
    && !IsTool(ms[j])
    && (forall k :: j < k <= i ==> IsTool(ms[k]))
    && id in CallIds(ms[j].content)
    && |ms[i].content| == 1 && ms[i].content[0].ToolResult? && ms[i].content[0].call == id
  }

  ghost predicate ToolAnchored(ms: seq<Message>, i: nat)
    requires i < |ms|
  {
    IsTool(ms[i]) ==> exists j: nat, id :: AnswersFrom(ms, j, i, id)
  }

  ghost predicate CallsAnswered(ms: seq<Message>, j: nat)
    requires j < |ms|
  {
    !IsTool(ms[j]) ==> forall id :: id in CallIds(ms[j].content) ==> exists i: nat :: AnswersFrom(ms, j, i, id)
  }

  ghost predicate ProviderShape(ms: seq<Message>) {
    && (forall i :: 0 <= i < |ms| ==> ToolAnchored(ms, i) && ms[i].content != [])
    && (forall j :: 0 <= j < |ms| ==> CallsAnswered(ms, j))
  }

  function AllCallIds(ms: seq<Message>): seq<string> {
    if ms == [] then [] else AllCallIds(ms[..|ms| - 1]) + CallIds(ms[|ms| - 1].content)
  }

  lemma AnswersShift(a: seq<Message>, ms: seq<Message>, b: seq<Message>, j: nat, i: nat, id: string)
    requires AnswersFrom(ms, j, i, id)
    ensures AnswersFrom(a + ms + b, |a| + j, |a| + i, id)
  {
    var whole := a + ms + b;
    assert forall k :: j <= k <= i ==> whole[|a| + k] == ms[k];
    forall k | |a| + j < k <= |a| + i ensures IsTool(whole[k]) {
      assert whole[k] == ms[k - |a|];
    }
  }

  /** Being anchored and being answered survive any surroundings. */
  lemma ShapeLifts(a: seq<Message>, ms: seq<Message>, b: seq<Message>, i: nat)
    requires i < |ms| && ToolAnchored(ms, i) && CallsAnswered(ms, i)
    ensures |a| + i < |a + ms + b| && (a + ms + b)[|a| + i] == ms[i]
    ensures ToolAnchored(a + ms + b, |a| + i) && CallsAnswered(a + ms + b, |a| + i)
  {
    var whole := a + ms + b;
    var at := |a| + i;
    assert whole[at] == ms[i];
    if IsTool(ms[i]) {
      var j: nat, id :| AnswersFrom(ms, j, i, id);
      AnswersShift(a, ms, b, j, i, id);
    } else {
      forall id | id in CallIds(ms[i].content) ensures exists k: nat :: AnswersFrom(whole, at, k, id) {
        var k: nat :| AnswersFrom(ms, i, k, id);
        AnswersShift(a, ms, b, i, k, id);
      }
    }
  }

  lemma ShapeConcat(a: seq<Message>, b: seq<Message>)
    requires ProviderShape(a) && ProviderShape(b)
    ensures ProviderShape(a + b)
  {
    var whole := a + b;
    forall i | 0 <= i < |whole| ensures ToolAnchored(whole, i) && whole[i].content != [] && CallsAnswered(whole, i) {
      if i < |a| {
        ShapeLifts([], a, b, i);
        assert [] + a + b == whole;
      } else {
        ShapeLifts(a, b, [], i - |a|);
        assert a + b + [] == whole;
      }
    }
  }

  // ---------------------------------------------------------------- one exchange

  /** A pool as the first pass leaves it: no id without a result, every result under its own id. */
  ghost predicate GoodPool(pool: Pool) {
    forall id :: id in pool ==> pool[id] != [] && forall a :: a in pool[id] ==> a.call == id
  }

  lemma CallIdsSnoc(content: seq<Block>, b: Block)
    ensures CallIds(content + [b]) == CallIds(content) + (if b.ToolCall? then [b.id] else [])
  {
    assert (content + [b])[..|content|] == content;
  }

  lemma {:induction false} CallIdsConcat(a: seq<Block>, b: seq<Block>)
    ensures CallIds(a + b) == CallIds(a) + CallIds(b)
  {
    if b == [] {
      assert a + b == a;
    } else {
      assert (a + b)[..|a + b| - 1] == a + b[..|b| - 1];
      CallIdsConcat(a, b[..|b| - 1]);
    }
  }

  ghost predicate MatchedIds(calls: seq<Block>, pool: Pool, m: Match) {
    && Orders.NoRepeats(CallIds(m.calls))
    && (forall id :: id in CallIds(m.calls) <==> id in CallIds(calls) && id in pool)
    && (forall id :: id in m.pool <==> id in pool && id !in CallIds(calls))
    && (forall id :: id in m.pool ==> m.pool[id] == pool[id])
  }

  ghost predicate MatchedAnswers(pool: Pool, m: Match) {
    && (forall id :: id in CallIds(m.calls) ==> id in pool && Keep(ForCall(id), m.answers) == pool[id])
    && (forall a :: a in m.answers ==> a.call in CallIds(m.calls))
  }

  lemma {:induction false} MatchIds(calls: seq<Block>, pool: Pool)
    ensures MatchedIds(calls, pool, MatchCalls(calls, pool))
  {
    if calls != [] {
      var before, c := calls[..|calls| - 1], calls[|calls| - 1];
      MatchIds(before, pool);
      CallIdsSnoc(before, c);
      assert calls == before + [c];
      CallIdsSnoc(MatchCalls(before, pool).calls, c);
    }
  }

  /** Answers grow by all the results of one more call. */
  lemma AnswersSnoc(pool: Pool, m: Match, c: Block)
    requires MatchedAnswers(pool, m) && GoodPool(pool)
    requires c.ToolCall? && c.id in pool && c.id !in CallIds(m.calls)
    ensures MatchedAnswers(pool, Match(m.calls + [c], m.answers + pool[c.id], m.pool))
  {
    CallIdsSnoc(m.calls, c);
    var answers := pool[c.id];
    forall id | id in CallIds(m.calls + [c]) ensures Keep(ForCall(id), m.answers + answers) == pool[id] {
      KeepConcat(ForCall(id), m.answers, answers);
      if id == c.id {
        KeepNothing(ForCall(id), m.answers);
        KeepAll(ForCall(id), answers);
      } else {
        KeepNothing(ForCall(id), answers);
      }
    }
  }

  lemma {:induction false} MatchAnswers(calls: seq<Block>, pool: Pool)
    requires GoodPool(pool)
    ensures MatchedAnswers(pool, MatchCalls(calls, pool))
  {
    if calls != [] {
      var before, c := calls[..|calls| - 1], calls[|calls| - 1];
      MatchAnswers(before, pool);
      MatchIds(before, pool);
      var m := MatchCalls(before, pool);
      if c.ToolCall? && c.id in m.pool {
        AnswersSnoc(pool, m, c);
      }
    }
  }

  lemma ContentIds(t: Turn, pool: Pool)
    ensures CallIds(Content(t, pool)) == CallIds(MatchCalls(t.calls, pool).calls)
  {
    CallIdsConcat(TextBlock(t.text), MatchCalls(t.calls, pool).calls);
    assert CallIds(TextBlock(t.text)) == [];
  }

  /** A speaker followed by answers to its own calls, one at least for each, is well shaped. */
  lemma BlockShape(speaker: Message, answers: seq<Answer>)
    requires !IsTool(speaker) && speaker.content != []
    requires forall i :: 0 <= i < |answers| ==> answers[i].call in CallIds(speaker.content)
    requires forall id :: id in CallIds(speaker.content) ==> exists i :: 0 <= i < |answers| && answers[i].call == id
    ensures ProviderShape([speaker] + ToolMessages(answers))
  {
    var ms := [speaker] + ToolMessages(answers);
    assert forall k :: 0 <= k < |answers| ==> ms[k + 1] == ToolMessage(answers[k]);
    forall i | 0 <= i < |ms| ensures ToolAnchored(ms, i) {
      if i > 0 {
        BlockAnswer(speaker, answers, i - 1);
      }
    }
    forall id | id in CallIds(speaker.content) ensures exists i: nat :: AnswersFrom(ms, 0, i, id) {
      var i :| 0 <= i < |answers| && answers[i].call == id;
      BlockAnswer(speaker, answers, i);
    }
  }

  lemma BlockAnswer(speaker: Message, answers: seq<Answer>, i: nat)
    requires !IsTool(speaker) && i < |answers| && answers[i].call in CallIds(speaker.content)
    ensures AnswersFrom([speaker] + ToolMessages(answers), 0, i + 1, answers[i].call)
  {
    var ms := [speaker] + ToolMessages(answers);
    forall k | 0 < k <= i + 1 ensures IsTool(ms[k]) {
      assert ms[k] == ToolMessage(answers[k - 1]);
    }
  }

  lemma ExchangeShape(t: Turn, pool: Pool)
    requires GoodPool(pool) && t.role != "tool"
    ensures ProviderShape(Exchange(t, pool))
  {
    MatchAnswers(t.calls, pool);
    var m := MatchCalls(t.calls, pool);
    ContentIds(t, pool);
    assert forall i :: 0 <= i < |m.answers| ==> m.answers[i] in m.answers;
    assert m.answers != [] ==> m.answers[0].call in CallIds(m.calls);
    if Content(t, pool) == [] {
      assert CallIds(Content(t, pool)) == [];
    } else {
      forall id | id in CallIds(m.calls) ensures exists i :: 0 <= i < |m.answers| && m.answers[i].call == id {
        var mine := Keep(ForCall(id), m.answers);
        KeepMembers(ForCall(id), m.answers);
        assert mine[0] in mine;
      }
      BlockShape(Message(t.role, Content(t, pool), t.source), m.answers);
    }
  }

  // ---------------------------------------------------------------- all exchanges

  function CalledBy(turns: seq<Turn>): seq<string> {
    if turns == [] then [] else CalledBy(turns[..|turns| - 1]) + CallIds(turns[|turns| - 1].calls)
  }

  /** The results a list of messages delivers, in order. */
  function Delivered(ms: seq<Message>): seq<Answer> {
    if ms == [] then []
    else
      var m := ms[|ms| - 1];
      Delivered(ms[..|ms| - 1]) +
      (if IsTool(m) && |m.content| == 1 && m.content[0].ToolResult?
       then [Answer(m.content[0].call, m.content[0].content, m.source, m.content[0].isError)] else [])
  }

  lemma {:induction false} DeliveredConcat(a: seq<Message>, b: seq<Message>)
    ensures Delivered(a + b) == Delivered(a) + Delivered(b)
  {
    if b == [] {
      assert a + b == a;
    } else {
      assert (a + b)[..|a + b| - 1] == a + b[..|b| - 1];
      DeliveredConcat(a, b[..|b| - 1]);
    }
  }

  lemma {:induction false} DeliveredToolMessages(answers: seq<Answer>)
    ensures Delivered(ToolMessages(answers)) == answers
    ensures AllCallIds(ToolMessages(answers)) == []
  {
    if answers != [] {
      var last := |answers| - 1;
      DeliveredToolMessages(answers[..last]);
      assert ToolMessages(answers)[..last] == ToolMessages(answers[..last]);
      assert CallIds(ToolMessage(answers[last]).content) == CallIds([]) + [];
    }
  }

  lemma {:induction false} AllCallIdsConcat(a: seq<Message>, b: seq<Message>)
    ensures AllCallIds(a + b) == AllCallIds(a) + AllCallIds(b)
  {
    if b == [] {
      assert a + b == a;
    } else {
      assert (a + b)[..|a + b| - 1] == a + b[..|b| - 1];
      AllCallIdsConcat(a, b[..|b| - 1]);
      ConcatAssociates(AllCallIds(a), AllCallIds(b[..|b| - 1]), CallIds(b[|b| - 1].content));
    }
  }

  lemma ExchangeContents(t: Turn, pool: Pool)
    requires t.role != "tool"
    ensures Delivered(Exchange(t, pool)) == MatchCalls(t.calls, pool).answers
    ensures AllCallIds(Exchange(t, pool)) == CallIds(MatchCalls(t.calls, pool).calls)
  {
    var answers := MatchCalls(t.calls, pool).answers;
    var head := Speaker(t, pool);
    DeliveredConcat(head, ToolMessages(answers));
    AllCallIdsConcat(head, ToolMessages(answers));
    DeliveredToolMessages(answers);
    ContentIds(t, pool);
    if head != [] {
      assert head[..0] == [];
    }
  }

  ghost predicate EmittedIds(turns: seq<Turn>, pool: Pool, e: Emission) {
    && Orders.NoRepeats(AllCallIds(e.messages))
    && (forall id :: id in AllCallIds(e.messages) <==> id in CalledBy(turns) && id in pool)
    && (forall id :: id in e.pool <==> id in pool && id !in CalledBy(turns))
    && (forall id :: id in e.pool ==> e.pool[id] == pool[id])
  }

  ghost predicate EmittedResults(pool: Pool, e: Emission) {
    && (forall id :: id in AllCallIds(e.messages) ==> id in pool && Keep(ForCall(id), Delivered(e.messages)) == pool[id])
    && (forall a :: a in Delivered(e.messages) ==> a.call in AllCallIds(e.messages))
  }

  lemma NoRepeatsConcat(a: seq<string>, b: seq<string>)
    requires Orders.NoRepeats(a) && Orders.NoRepeats(b)
    requires forall x :: x in b ==> x !in a
    ensures Orders.NoRepeats(a + b)
  {
    forall i, j | 0 <= i < j < |a + b| ensures (a + b)[i] != (a + b)[j] {
      if i < |a| <= j {
        assert b[j - |a|] in b && a[i] in a;
      }
    }
  }

  lemma {:induction false} EmitIds(turns: seq<Turn>, pool: Pool)
    requires forall i :: 0 <= i < |turns| ==> turns[i].role != "tool"
    ensures EmittedIds(turns, pool, Emit(turns, pool))
  {
    if turns != [] {
      var before, t := turns[..|turns| - 1], turns[|turns| - 1];
      EmitIds(before, pool);
      var e := Emit(before, pool);
      MatchIds(t.calls, e.pool);
      ExchangeContents(t, e.pool);
      AllCallIdsConcat(e.messages, Exchange(t, e.pool));
      NoRepeatsConcat(AllCallIds(e.messages), AllCallIds(Exchange(t, e.pool)));
    }
  }

  /** Two lists of answers to different calls deliver side by side. */
  lemma ResultsConcat(pool: Pool, a: seq<Answer>, aIds: seq<string>, b: seq<Answer>, bIds: seq<string>)
    requires forall id :: id in aIds ==> id in pool && id !in bIds && Keep(ForCall(id), a) == pool[id]
    requires forall id :: id in bIds ==> id in pool && Keep(ForCall(id), b) == pool[id]
    requires forall x :: x in a ==> x.call in aIds
    requires forall x :: x in b ==> x.call in bIds
    ensures forall id :: id in aIds + bIds ==> Keep(ForCall(id), a + b) == pool[id]
  {
    forall id | id in aIds + bIds ensures Keep(ForCall(id), a + b) == pool[id] {
      KeepConcat(ForCall(id), a, b);
      if id in aIds {
        KeepNothing(ForCall(id), b);
      } else {
        KeepNothing(ForCall(id), a);
      }
    }
  }

  lemma {:induction false} EmitResults(turns: seq<Turn>, pool: Pool)
    requires GoodPool(pool)
    requires forall i :: 0 <= i < |turns| ==> turns[i].role != "tool"
    ensures EmittedResults(pool, Emit(turns, pool))
  {
    if turns != [] {
      var before, t := turns[..|turns| - 1], turns[|turns| - 1];
      EmitResults(before, pool);
      EmitIds(before, pool);
      var e := Emit(before, pool);
      var x := Exchange(t, e.pool);
      MatchIds(t.calls, e.pool);
      MatchAnswers(t.calls, e.pool);
      ExchangeContents(t, e.pool);
      AllCallIdsConcat(e.messages, x);
      DeliveredConcat(e.messages, x);
      ResultsConcat(pool, Delivered(e.messages), AllCallIds(e.messages), Delivered(x), AllCallIds(x));
    }
  }

  lemma {:induction false} EmitShape(turns: seq<Turn>, pool: Pool)
    requires GoodPool(pool)
    requires forall i :: 0 <= i < |turns| ==> turns[i].role != "tool"
    ensures ProviderShape(Emit(turns, pool).messages)
  {
    if turns != [] {
      var before, t := turns[..|turns| - 1], turns[|turns| - 1];
      EmitShape(before, pool);
      EmitIds(before, pool);
      var e := Emit(before, pool);
      ExchangeShape(t, e.pool);
      ShapeConcat(e.messages, Exchange(t, e.pool));
    }
  }

  // ---------------------------------------------------------------- theorems about the whole

  function Rebuilt(rs: seq<Record>, pool: Pool): seq<Message> {
    Emit(AllTurns(Groups(ParseAll(rs))), pool).messages
  }

  lemma CollectedPoolIsGood(pool: Pool, all: seq<Answer>)
    requires Collects(pool, all)
    ensures GoodPool(pool)
  {
    forall id | id in pool ensures pool[id] != [] && forall a :: a in pool[id] ==> a.call == id {
      KeepMembers(ForCall(id), all);
    }
  }

  /**
   * What a provider requires, for any journal at all: each tool message sits in
   * the unbroken block behind the speaker that made its call, each call that is
   * shown has an answer in that block, and no call id is shown twice.
   */
  lemma RebuiltHasProviderShape(rs: seq<Record>, pool: Pool)
    requires Collects(pool, AllResults(ParseAll(rs)))
    ensures ProviderShape(Rebuilt(rs, pool))
    ensures Orders.NoRepeats(AllCallIds(Rebuilt(rs, pool)))
  {
    CollectedPoolIsGood(pool, AllResults(ParseAll(rs)));
    var turns := AllTurns(Groups(ParseAll(rs)));
    EmitShape(turns, pool);
    EmitIds(turns, pool);
  }

  /**
   * Conservation. For every call id, the results delivered are exactly the
   * results recorded, each once and in arrival order, when some turn makes the
   * call; and none when no turn does.
   */
  lemma ResultsAreConserved(rs: seq<Record>, pool: Pool, id: string)
    requires Collects(pool, AllResults(ParseAll(rs)))
    ensures
      var recorded := Keep(ForCall(id), AllResults(ParseAll(rs)));
      Keep(ForCall(id), Delivered(Rebuilt(rs, pool))) ==
        if id in CalledBy(AllTurns(Groups(ParseAll(rs)))) then recorded else []
    ensures id in AllCallIds(Rebuilt(rs, pool)) <==>
              id in CalledBy(AllTurns(Groups(ParseAll(rs)))) && Keep(ForCall(id), AllResults(ParseAll(rs))) != []
  {
    CollectedPoolIsGood(pool, AllResults(ParseAll(rs)));
    var turns := AllTurns(Groups(ParseAll(rs)));
    EmitIds(turns, pool);
    EmitResults(turns, pool);
    if id !in AllCallIds(Rebuilt(rs, pool)) {
      KeepNothing(ForCall(id), Delivered(Rebuilt(rs, pool)));
    }
  }

  /** The speaking part of a message: who says it, where it came from and what. */
  datatype Speech = Speech(role: string, source: string, text: string)

  function SpeechesOf(ms: seq<Message>): seq<Speech> {
    if ms == [] then []
    else
      var m := ms[|ms| - 1];
      SpeechesOf(ms[..|ms| - 1]) +
      (if !IsTool(m) && m.content != [] && m.content[0].Text? then [Speech(m.role, m.source, m.content[0].body)] else [])
  }

  function SpeechesIn(turns: seq<Turn>): seq<Speech> {
    if turns == [] then []
    else
      var t := turns[|turns| - 1];
      SpeechesIn(turns[..|turns| - 1]) + (if t.text != "" then [Speech(t.role, t.source, t.text)] else [])
  }

  lemma {:induction false} SpeechesConcat(a: seq<Message>, b: seq<Message>)
    ensures SpeechesOf(a + b) == SpeechesOf(a) + SpeechesOf(b)
  {
    if b == [] {
      assert a + b == a;
    } else {
      assert (a + b)[..|a + b| - 1] == a + b[..|b| - 1];
      SpeechesConcat(a, b[..|b| - 1]);
    }
  }

  lemma {:induction false} ToolMessagesAreSilent(answers: seq<Answer>)
    ensures SpeechesOf(ToolMessages(answers)) == []
  {
    if answers != [] {
      var last := |answers| - 1;
      ToolMessagesAreSilent(answers[..last]);
      assert ToolMessages(answers)[..last] == ToolMessages(answers[..last]);
    }
  }

  lemma {:induction false} MatchedAreCalls(calls: seq<Block>, pool: Pool)
    ensures forall b :: b in MatchCalls(calls, pool).calls ==> b.ToolCall?
  {
    if calls != [] {
      MatchedAreCalls(calls[..|calls| - 1], pool);
    }
  }

  lemma ExchangeSpeech(t: Turn, pool: Pool)
    requires t.role != "tool"
    ensures SpeechesOf(Exchange(t, pool)) == if t.text != "" then [Speech(t.role, t.source, t.text)] else []
  {
    var head := Speaker(t, pool);
    var answers := MatchCalls(t.calls, pool).answers;
    SpeechesConcat(head, ToolMessages(answers));
    ToolMessagesAreSilent(answers);
    MatchedAreCalls(t.calls, pool);
    if head != [] {
      assert head[..0] == [];
      var content := Content(t, pool);
      if t.text == "" {
        assert content == MatchCalls(t.calls, pool).calls;
        assert content[0] in content;
      }
      assert SpeechesOf(head) == if content[0].Text? then [Speech(t.role, t.source, content[0].body)] else [];
    }
  }

  /** Every non-empty speaker text survives, in turn order, and nothing else is said. */
  lemma {:induction false} SpeechSurvives(turns: seq<Turn>, pool: Pool)
    requires forall i :: 0 <= i < |turns| ==> turns[i].role != "tool"
    ensures SpeechesOf(Emit(turns, pool).messages) == SpeechesIn(turns)
  {
    if turns != [] {
      var t := turns[|turns| - 1];
      var before := Emit(turns[..|turns| - 1], pool);
      SpeechSurvives(turns[..|turns| - 1], pool);
      SpeechesConcat(before.messages, Exchange(t, before.pool));
      ExchangeSpeech(t, before.pool);
    }
  }

  ghost predicate OnePosition(g: Group) {
    forall i :: 0 <= i < |g| ==> g[i].position == g[0].position
  }

  lemma {:induction false} GroupsFlatten(es: seq<Entry>)
    ensures Flatten(Groups(es)) == es
  {
    if es != [] {
      var before, e := es[..|es| - 1], es[|es| - 1];
      GroupsFlatten(before);
      var gs, all := Groups(before), Groups(es);
      assert es == before + [e];
      if gs != [] && gs[|gs| - 1][0].position == e.position {
        var front, last := gs[..|gs| - 1], gs[|gs| - 1];
        assert all == front + [last + [e]];
        assert all[..|all| - 1] == front;
        ConcatAssociates(Flatten(front), last, [e]);
      } else {
        assert all[..|gs|] == gs;
      }
    }
  }

  lemma {:induction false} GroupsHavePositions(es: seq<Entry>)
    ensures forall k :: 0 <= k < |Groups(es)| ==> OnePosition(Groups(es)[k])
    ensures forall k :: 0 < k < |Groups(es)| ==> Groups(es)[k - 1][0].position != Groups(es)[k][0].position
  {
    if es != [] {
      var before, e := es[..|es| - 1], es[|es| - 1];
      GroupsHavePositions(before);
      var gs := Groups(before);
      if gs != [] && gs[|gs| - 1][0].position == e.position {
        assert OnePosition(gs[|gs| - 1]);
        assert (gs[|gs| - 1] + [e])[0] == gs[|gs| - 1][0];
        assert OnePosition(gs[|gs| - 1] + [e]);
      } else {
        assert OnePosition([e]);
      }
    }
  }

  /** Grouping only cuts: nothing moves, each group has one position, neighbours have different ones. */
  lemma GroupsOnlyCut(es: seq<Entry>)
    ensures Flatten(Groups(es)) == es
    ensures forall k :: 0 <= k < |Groups(es)| ==> OnePosition(Groups(es)[k])
    ensures forall k :: 0 < k < |Groups(es)| ==> Groups(es)[k - 1][0].position != Groups(es)[k][0].position
  {
    GroupsFlatten(es);
    GroupsHavePositions(es);
  }

  // ---------------------------------------------------------------- the loops

  lemma AllResultsSnoc(es: seq<Entry>, e: Entry)
    ensures AllResults(es + [e]) == AllResults(es) + ResultsOf(e)
  {
    assert (es + [e])[..|es|] == es;
  }

  function Pushed(m: Pool, a: Answer): Pool {
    m[a.call := (if a.call in m then m[a.call] else []) + [a]]
  }

  lemma CollectsSnoc(m: Pool, all: seq<Answer>, a: Answer)
    requires Collects(m, all)
    ensures Collects(Pushed(m, a), all + [a])
  {
    forall id ensures Keep(ForCall(id), all + [a]) == Keep(ForCall(id), all) + (if a.call == id then [a] else []) {
      KeepConcat(ForCall(id), all, [a]);
      assert Keep(ForCall(id), [a]) == if a.call == id then [a] else [];
    }
  }

  method AddToGroups(grouped: seq<Group>, e: Entry, ghost es: seq<Entry>) returns (grown: seq<Group>)
    requires grouped == Groups(es)
    ensures grown == Groups(es + [e])
  {
    assert (es + [e])[..|es|] == es;
    if grouped != [] && grouped[|grouped| - 1][0].position == e.position {
      return grouped[..|grouped| - 1] + [grouped[|grouped| - 1] + [e]];
    }
    return grouped + [[e]];
  }

  method GroupRecords(rs: seq<Record>) returns (grouped: seq<Group>)
    ensures grouped == Groups(ParseAll(rs))
  {
    grouped := [];
    ghost var es: seq<Entry> := [];
    for i := 0 to |rs|
      invariant es == ParseAll(rs[..i])
      invariant grouped == Groups(es)
    {
      assert rs[..i + 1][..i] == rs[..i];
      var parsed := Parse(rs[i]);
      if parsed.Some? {
        grouped := AddToGroups(grouped, parsed.value, es);
        es := es + [parsed.value];
      }
    }
    assert rs[..|rs|] == rs;
  }

  lemma CollectsEntry(m: Pool, seen: seq<Entry>, e: Entry)
    requires Collects(m, AllResults(seen))
    ensures
      var found := ResultsOf(e);
      Collects(if found == [] then m else Pushed(m, found[0]), AllResults(seen + [e]))
  {
    AllResultsSnoc(seen, e);
    if e.block.ToolResult? {
      CollectsSnoc(m, AllResults(seen), ResultsOf(e)[0]);
    } else {
      assert AllResults(seen + [e]) == AllResults(seen);
    }
  }

  method CollectOne(e: Entry, pool: Pool, ghost seen: seq<Entry>) returns (results: Pool)
    requires Collects(pool, AllResults(seen))
    ensures Collects(results, AllResults(seen + [e]))
  {
    CollectsEntry(pool, seen, e);
    if e.block.ToolResult? {
      var a := Answer(e.block.call, e.block.content, e.source, e.block.isError);
      return pool[a.call := (if a.call in pool then pool[a.call] else []) + [a]];
    }
    return pool;
  }

  method CollectFrom(group: Group, pool: Pool, ghost before: seq<Entry>) returns (results: Pool)
    requires Collects(pool, AllResults(before))
    ensures Collects(results, AllResults(before + group))
  {
    results := pool;
    ghost var seen := before;
    for k := 0 to |group|
      invariant seen == before + group[..k]
      invariant Collects(results, AllResults(seen))
    {
      results := CollectOne(group[k], results, seen);
      TakeOneMore(before, group, k);
      seen := seen + [group[k]];
    }
    assert group[..|group|] == group && seen == before + group;
  }

  /** The first pass over the groups: a result may precede or follow its call, so all are collected first. */
  method CollectResults(grouped: seq<Group>) returns (results: Pool)
    ensures Collects(results, AllResults(Flatten(grouped)))
  {
    results := map[];
    ghost var seen: seq<Entry> := [];
    for g := 0 to |grouped|
      invariant seen == Flatten(grouped[..g])
      invariant Collects(results, AllResults(seen))
    {
      results := CollectFrom(grouped[g], results, seen);
      seen := seen + grouped[g];
      assert grouped[..g + 1][..g] == grouped[..g];
    }
    assert grouped[..|grouped|] == grouped;
  }

  method GatherGroup(group: seq<Entry>) returns (text: seq<string>, calls: seq<Block>)
    ensures text == TextsOf(group) && calls == CallsOf(group)
  {
    text, calls := [], [];
    for k := 0 to |group|
      invariant text == TextsOf(group[..k]) && calls == CallsOf(group[..k])
    {
      assert group[..k + 1][..k] == group[..k];
      match group[k].block {
        case Text(body) => text := text + [body];
        case ToolCall(_, _, _) => calls := calls + [group[k].block];
        case ToolResult(_, _, _) =>
      }
    }
    assert group[..|group|] == group;
  }

  method BuildTurns(grouped: seq<Group>) returns (turns: seq<Turn>)
    ensures turns == AllTurns(grouped)
  {
    turns := [];
    for g := 0 to |grouped|
      invariant turns == AllTurns(grouped[..g])
    {
      assert grouped[..g + 1][..g] == grouped[..g];
      var group := grouped[g];
      if group[0].role == "tool" {
        continue;
      }
      var text, calls := GatherGroup(group);
      if text == [] && calls == [] {
        continue;
      }
      turns := turns + [Turn(group[0].role, group[0].source, JoinLines(text), calls)];
    }
    assert grouped[..|grouped|] == grouped;
  }

  /** What one speaker says, and the results its calls take out of the pool. */
  method AnswerCalls(turn: Turn, pool: Pool) returns (content: seq<Block>, answered: seq<Answer>, results: Pool)
    ensures content == Content(turn, pool)
    ensures answered == MatchCalls(turn.calls, pool).answers && results == MatchCalls(turn.calls, pool).pool
  {
    content, answered, results := [], [], pool;
    if turn.text != "" {
      content := [Text(turn.text)];
    }
    ghost var shown: seq<Block> := [];
    for k := 0 to |turn.calls|
      invariant Match(shown, answered, results) == MatchCalls(turn.calls[..k], pool)
      invariant content == TextBlock(turn.text) + shown
    {
      assert turn.calls[..k + 1][..k] == turn.calls[..k];
      var call := turn.calls[k];
      if call.ToolCall? && call.id in results {
        ConcatAssociates(TextBlock(turn.text), shown, [call]);
        content := content + [call];
        shown := shown + [call];
        answered := answered + results[call.id];
        results := results - {call.id};
      }
    }
    assert turn.calls[..|turn.calls|] == turn.calls;
  }

  /** One turn: the speaker, when it has something to say, and the tool messages after it. */
  method EmitTurn(turn: Turn, said: seq<Message>, pool: Pool) returns (messages: seq<Message>, results: Pool)
    ensures messages == said + Exchange(turn, pool)
    ensures results == MatchCalls(turn.calls, pool).pool
  {
    var content: seq<Block>;
    var answered: seq<Answer>;
    content, answered, results := AnswerCalls(turn, pool);
    messages := said;
    if content != [] {
      messages := messages + [Message(turn.role, content, turn.source)];
    }
    ConcatAssociates(said, Speaker(turn, pool), ToolMessages(answered));
    messages := messages + ToolMessages(answered);
  }

  /** The last pass: each speaker, then the answers to the calls it still finds results for. */
  method EmitMessages(turns: seq<Turn>, collected: Pool) returns (messages: seq<Message>)
    ensures messages == Emit(turns, collected).messages
  {
    messages := [];
    var results := collected;
    for t := 0 to |turns|
      invariant Emission(messages, results) == Emit(turns[..t], collected)
    {
      assert turns[..t + 1][..t] == turns[..t];
      messages, results := EmitTurn(turns[t], messages, results);
    }
    assert turns[..|turns|] == turns;
  }

  /**
   * The whole rebuild. Whatever the journal holds, the messages have the shape
   * a provider requires, deliver every recorded result of a called id once and
   * in order, and say what the speaking turns said.
   */
  method MessagesFromRecords(rs: seq<Record>) returns (messages: seq<Message>)
    ensures ProviderShape(messages) && Orders.NoRepeats(AllCallIds(messages))
    ensures forall id ::
              Keep(ForCall(id), Delivered(messages)) ==
                if id in CalledBy(AllTurns(Groups(ParseAll(rs)))) then Keep(ForCall(id), AllResults(ParseAll(rs))) else []
    ensures forall id ::
              id in AllCallIds(messages) <==>
                id in CalledBy(AllTurns(Groups(ParseAll(rs)))) && Keep(ForCall(id), AllResults(ParseAll(rs))) != []
    ensures SpeechesOf(messages) == SpeechesIn(AllTurns(Groups(ParseAll(rs))))
    ensures exists pool :: Collects(pool, AllResults(ParseAll(rs))) && messages == Rebuilt(rs, pool)
  {
    var grouped := GroupRecords(rs);
    var results := CollectResults(grouped);
    GroupsOnlyCut(ParseAll(rs));
    var turns := BuildTurns(grouped);
    messages := EmitMessages(turns, results);
    RebuiltHasProviderShape(rs, results);
    SpeechSurvives(turns, results);
    forall id ensures
        Keep(ForCall(id), Delivered(messages)) ==
          if id in CalledBy(AllTurns(Groups(ParseAll(rs)))) then Keep(ForCall(id), AllResults(ParseAll(rs))) else []
      ensures id in AllCallIds(messages) <==>
                id in CalledBy(AllTurns(Groups(ParseAll(rs)))) && Keep(ForCall(id), AllResults(ParseAll(rs))) != [] {
      ResultsAreConserved(rs, results, id);
    }
  }
}
