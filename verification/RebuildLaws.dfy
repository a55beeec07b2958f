/**
 * What a rebuilt history holds, told from the records alone
 * (agent/examples/compaction_probe.rs, `message` and `messages_from_records`).
 */
module RebuildLaws {
  import opened Wrappers
  import opened Sequences
  import opened Rebuild

  // ---------------------------------------------------------------- one record

  /** Which records become an entry, and what the entry takes from its record. */
  lemma ParsedExactlyWhen(r: Record)
    ensures Parse(r).Some? <==>
              && r.id.Some? && r.kind.Some?
              && (r.kind == Some("tool_result") || r.role.Some?)
              && (r.kind == Some("tool_call") || r.kind == Some("tool_result") ==> r.call.Some?)
              && (r.kind != Some("tool_call") ==> r.text.Some?)
    ensures Parse(r).Some? ==>
              var e := Parse(r).value;
              && e.source == r.id.value
              && (r.kind == Some("tool_call") ==>
                    e.role == r.role.value && e.block == ToolCall(r.call.value, if r.tool.Some? then r.tool.value else "read", r.path))
              && (r.kind == Some("tool_result") ==>
                    e.role == "tool" && e.block == ToolResult(r.call.value, r.text.value, r.error == Some(true)))
              && (r.kind != Some("tool_call") && r.kind != Some("tool_result") ==>
                    e.role == r.role.value && e.block == Text(r.text.value))
              && (r.position.Integer? ==> e.position == r.position.n)
              && (r.position.Absent? && r.order.Integer? ==> e.position == r.order.n)
              && (r.position.NotAnInteger? || (r.position.Absent? && !r.order.Integer?) ==> e.position == 0)
  {
  }

  /** Records become entries one by one and in their order. */
  lemma {:induction false} ParseAllConcat(a: seq<Record>, b: seq<Record>)
    ensures ParseAll(a + b) == ParseAll(a) + ParseAll(b)
  {
    if b == [] {
      assert a + b == a;
    } else {
      assert (a + b)[..|a + b| - 1] == a + b[..|b| - 1];
      var last := Parse(b[|b| - 1]);
      ParseAllConcat(a, b[..|b| - 1]);
      ConcatAssociates(ParseAll(a), ParseAll(b[..|b| - 1]), if last.Some? then [last.value] else []);
    }
  }

  lemma ParseAllSingle(r: Record)
    ensures ParseAll([r]) == if Parse(r).Some? then [Parse(r).value] else []
  {
    assert [r][..0] == [];
  }

  // ---------------------------------------------------------------- texts

  lemma {:induction false} TextsConcat(a: seq<Entry>, b: seq<Entry>)
    ensures TextsOf(a + b) == TextsOf(a) + TextsOf(b)
  {
    if b == [] {
      assert a + b == a;
    } else {
      assert (a + b)[..|a + b| - 1] == a + b[..|b| - 1];
      var last := b[|b| - 1].block;
      TextsConcat(a, b[..|b| - 1]);
      ConcatAssociates(TextsOf(a), TextsOf(b[..|b| - 1]), if last.Text? then [last.body] else []);
    }
  }

  lemma TextsSingle(e: Entry)
    ensures TextsOf([e]) == if e.block.Text? then [e.block.body] else []
  {
    assert [e][..0] == [];
  }

  /** Joining by line ends: nothing for no text, a text alone as it is, and one line end between two lists of texts. */
  lemma {:induction false} JoinConcat(x: seq<string>, y: seq<string>)
    ensures JoinLines([]) == ""
    ensures forall text: string :: JoinLines([text]) == text
    ensures x != [] && y != [] ==> JoinLines(x + y) == JoinLines(x) + "\n" + JoinLines(y)
  {
    if x != [] && y != [] {
      assert (x + y)[..|x + y| - 1] == x + y[..|y| - 1];
      if |y| > 1 {
        JoinConcat(x, y[..|y| - 1]);
      } else {
        assert x + y[..0] == x;
      }
    }
  }

  /** The text `texts` make in front of another one, and behind one. */
  function Before(texts: seq<string>): string {
    if texts == [] then "" else JoinLines(texts) + "\n"
  }

  function After(texts: seq<string>): string {
    if texts == [] then "" else "\n" + JoinLines(texts)
  }

  lemma JoinBehind(x: seq<string>, text: string)
    ensures JoinLines(x + [text]) == Before(x) + text
  {
    JoinConcat(x, [text]);
    if x == [] {
      assert x + [text] == [text];
      assert Before(x) + text == text;
    }
  }

  lemma JoinInFront(x: seq<string>, y: seq<string>)
    requires x != []
    ensures JoinLines(x + y) == JoinLines(x) + After(y)
  {
    if y == [] {
      assert x + y == x;
      assert JoinLines(x) + After(y) == JoinLines(x);
    } else {
      JoinConcat(x, y);
      ConcatAssociates(JoinLines(x), "\n", JoinLines(y));
    }
  }

  lemma JoinAround(x: seq<string>, text: string, y: seq<string>)
    ensures JoinLines((x + [text]) + y) == Before(x) + text + After(y)
  {
    JoinInFront(x + [text], y);
    JoinBehind(x, text);
  }

  // ---------------------------------------------------------------- speech

  lemma {:induction false} TurnsConcat(a: seq<Group>, b: seq<Group>)
    ensures AllTurns(a + b) == AllTurns(a) + AllTurns(b)
  {
    if b == [] {
      assert a + b == a;
    } else {
      assert (a + b)[..|a + b| - 1] == a + b[..|b| - 1];
      TurnsConcat(a, b[..|b| - 1]);
      ConcatAssociates(AllTurns(a), AllTurns(b[..|b| - 1]), TurnsOf(b[|b| - 1]));
    }
  }

  lemma {:induction false} SpeechesInConcat(a: seq<Turn>, b: seq<Turn>)
    ensures SpeechesIn(a + b) == SpeechesIn(a) + SpeechesIn(b)
  {
    if b == [] {
      assert a + b == a;
    } else {
      assert (a + b)[..|a + b| - 1] == a + b[..|b| - 1];
      var t := b[|b| - 1];
      SpeechesInConcat(a, b[..|b| - 1]);
      ConcatAssociates(SpeechesIn(a), SpeechesIn(b[..|b| - 1]), if t.text != "" then [Speech(t.role, t.source, t.text)] else []);
    }
  }

  /** What is said for a list of groups. */
  function Said(gs: seq<Group>): seq<Speech> {
    SpeechesIn(AllTurns(gs))
  }

  lemma SaidConcat(a: seq<Group>, b: seq<Group>)
    ensures Said(a + b) == Said(a) + Said(b)
  {
    TurnsConcat(a, b);
    SpeechesInConcat(AllTurns(a), AllTurns(b));
  }

  /** One group is heard once, as its first entry, unless a tool leads it or its texts come to nothing. */
  lemma SaidSingle(g: Group)
    ensures Said([g]) ==
              if g[0].role == "tool" || JoinLines(TextsOf(g)) == "" then []
              else [Speech(g[0].role, g[0].source, JoinLines(TextsOf(g)))]
  {
    assert [g][..0] == [];
    assert AllTurns([g]) == TurnsOf(g);
    if TurnsOf(g) != [] {
      SpeechOfATurn(TurnsOf(g)[0]);
      assert TurnsOf(g) == [TurnsOf(g)[0]];
    } else {
      assert g[0].role == "tool" || TextsOf(g) == [];
    }
  }

  lemma SpeechOfATurn(t: Turn)
    ensures SpeechesIn([t]) == if t.text == "" then [] else [Speech(t.role, t.source, t.text)]
  {
    assert [t][..0] == [];
  }

  lemma SaidAround(gs: seq<Group>, k: nat)
    requires k < |gs|
    ensures Said(gs) == Said(gs[..k]) + Said([gs[k]]) + Said(gs[k + 1..])
  {
    var before, g, after := gs[..k], gs[k], gs[k + 1..];
    assert gs == (before + [g]) + after;
    SaidConcat(before + [g], after);
    SaidConcat(before, [g]);
  }

  /** The text of a group around one of its texts. */
  lemma TextAround(g: seq<Entry>, i: nat)
    requires i < |g| && g[i].block.Text?
    ensures JoinLines(TextsOf(g)) == Before(TextsOf(g[..i])) + g[i].block.body + After(TextsOf(g[i + 1..]))
  {
    var before, e, after := g[..i], g[i], g[i + 1..];
    assert g == (before + [e]) + after;
    TextsConcat(before + [e], after);
    TextsConcat(before, [e]);
    TextsSingle(e);
    JoinAround(TextsOf(before), e.block.body, TextsOf(after));
  }

  /**
   * Every recorded text is heard. In a group that no tool leads, the text of any
   * entry stands in one speech of the rebuilt history: behind the texts recorded
   * before it and in front of those recorded after it, one line end between two
   * texts. That speech has the role and the source of the group's first entry and
   * stands between what the earlier and what the later groups say.
   */
  lemma EveryTextIsHeard(rs: seq<Record>, pool: Pool, k: nat, i: nat)
    requires Collects(pool, AllResults(ParseAll(rs)))
    requires
      var gs := Groups(ParseAll(rs));
      k < |gs| && i < |gs[k]| && gs[k][0].role != "tool" && gs[k][i].block.Text? && gs[k][i].block.body != ""
    ensures
      var gs := Groups(ParseAll(rs));
      var g := gs[k];
      SpeechesOf(Rebuilt(rs, pool)) ==
        Said(gs[..k]) +
        [Speech(g[0].role, g[0].source, Before(TextsOf(g[..i])) + g[i].block.body + After(TextsOf(g[i + 1..])))] +
        Said(gs[k + 1..])
  {
    var gs := Groups(ParseAll(rs));
    SpeechSurvives(AllTurns(gs), pool);
    SaidAround(gs, k);
    SaidSingle(gs[k]);
    TextAround(gs[k], i);
  }

  /** And nothing else is heard: what is said is said for a group, in their order. */
  lemma NothingElseIsHeard(rs: seq<Record>, pool: Pool, k: nat)
    requires Collects(pool, AllResults(ParseAll(rs))) && k < |Groups(ParseAll(rs))|
    ensures
      var gs := Groups(ParseAll(rs));
      var g := gs[k];
      SpeechesOf(Rebuilt(rs, pool)) ==
        Said(gs[..k]) +
        (if g[0].role == "tool" || JoinLines(TextsOf(g)) == "" then [] else [Speech(g[0].role, g[0].source, JoinLines(TextsOf(g)))]) +
        Said(gs[k + 1..])
  {
    var gs := Groups(ParseAll(rs));
    SpeechSurvives(AllTurns(gs), pool);
    SaidAround(gs, k);
    SaidSingle(gs[k]);
  }

  // ---------------------------------------------------------------- calls

  function BlocksOf(es: seq<Entry>): seq<Block> {
    seq(|es|, i requires 0 <= i < |es| => es[i].block)
  }

  /** An id is among the call ids exactly when a call of that id is. */
  lemma {:induction false} CallIdsAreTheCalls(content: seq<Block>, id: string)
    ensures id in CallIds(content) <==> exists k :: 0 <= k < |content| && content[k].ToolCall? && content[k].id == id
  {
    if content != [] {
      var front := content[..|content| - 1];
      CallIdsAreTheCalls(front, id);
      if k :| 0 <= k < |content| && content[k].ToolCall? && content[k].id == id {
        assert k < |front| ==> front[k] == content[k];
      }
    }
  }

  lemma CallsOfSnoc(es: seq<Entry>, e: Entry)
    ensures CallsOf(es + [e]) == CallsOf(es) + (if e.block.ToolCall? then [e.block] else [])
  {
    assert (es + [e])[..|es|] == es;
  }

  lemma {:induction false} CallsAreRecorded(es: seq<Entry>)
    ensures CallIds(CallsOf(es)) == CallIds(BlocksOf(es))
  {
    if es != [] {
      var front, e := es[..|es| - 1], es[|es| - 1];
      CallsAreRecorded(front);
      assert es == front + [e];
      assert BlocksOf(es) == BlocksOf(front) + [e.block];
      CallsOfSnoc(front, e);
      CallIdsSnoc(BlocksOf(front), e.block);
      CallIdsSnoc(CallsOf(front), e.block);
      if !e.block.ToolCall? {
        assert CallsOf(es) == CallsOf(front);
      }
    }
  }

  predicate Speaks(g: Group) {
    g[0].role != "tool"
  }

  lemma CalledBySnoc(turns: seq<Turn>, t: Turn)
    ensures CalledBy(turns + [t]) == CalledBy(turns) + CallIds(t.calls)
  {
    assert (turns + [t])[..|turns|] == turns;
  }

  lemma BlocksConcat(a: seq<Entry>, b: seq<Entry>)
    ensures BlocksOf(a + b) == BlocksOf(a) + BlocksOf(b)
  {
  }

  lemma CalledByOneMore(gs: seq<Group>, g: Group)
    ensures CalledBy(AllTurns(gs + [g])) ==
              CalledBy(AllTurns(gs)) + (if Speaks(g) then CallIds(BlocksOf(g)) else [])
  {
    assert (gs + [g])[..|gs|] == gs;
    CallsAreRecorded(g);
    if TurnsOf(g) != [] {
      CalledBySnoc(AllTurns(gs), TurnsOf(g)[0]);
      assert TurnsOf(g) == [TurnsOf(g)[0]];
    } else {
      assert AllTurns(gs + [g]) == AllTurns(gs);
      assert Speaks(g) ==> CallIds(CallsOf(g)) == [];
    }
  }

  lemma BlocksOneMore(gs: seq<Group>, g: Group)
    ensures CallIds(BlocksOf(Flatten(Keep(Speaks, gs + [g])))) ==
              CallIds(BlocksOf(Flatten(Keep(Speaks, gs)))) + (if Speaks(g) then CallIds(BlocksOf(g)) else [])
  {
    var kept := Keep(Speaks, gs);
    KeepConcat(Speaks, gs, [g]);
    assert Keep(Speaks, [g]) == if Speaks(g) then [g] else [];
    if Speaks(g) {
      FlattenSnoc(kept, g);
      BlocksConcat(Flatten(kept), g);
      CallIdsConcat(BlocksOf(Flatten(kept)), BlocksOf(g));
    } else {
      assert Keep(Speaks, gs + [g]) == kept;
    }
  }

  /** The ids called in the groups no tool leads, in their order. */
  function CallsSpoken(gs: seq<Group>): seq<string> {
    CallIds(BlocksOf(Flatten(Keep(Speaks, gs))))
  }

  lemma CallsOneMore(gs: seq<Group>, g: Group)
    requires CalledBy(AllTurns(gs)) == CallsSpoken(gs)
    ensures CalledBy(AllTurns(gs + [g])) == CallsSpoken(gs + [g])
  {
    CalledByOneMore(gs, g);
    BlocksOneMore(gs, g);
  }

  /** The calls made by the turns are those recorded in the groups no tool leads, in their order. */
  lemma {:induction false} CallsOfTheTurns(gs: seq<Group>)
    ensures CalledBy(AllTurns(gs)) == CallsSpoken(gs)
  {
    if gs == [] {
      assert CallsSpoken(gs) == [] && CalledBy(AllTurns(gs)) == [];
    } else {
      var front, g := gs[..|gs| - 1], gs[|gs| - 1];
      CallsOfTheTurns(front);
      assert gs == front + [g];
      CallsOneMore(front, g);
    }
  }

  /** The first mentions of the ids in `wanted`. */
  function FirstOnes(called: seq<string>, wanted: set<string>): seq<string> {
    if called == [] then []
    else
      var front, id := called[..|called| - 1], called[|called| - 1];
      FirstOnes(front, wanted) + (if id in wanted && id !in front then [id] else [])
  }

  function Ids(called: seq<string>): set<string> {
    set id | id in called
  }

  lemma {:induction false} FirstOnesConcat(a: seq<string>, b: seq<string>, wanted: set<string>)
    ensures FirstOnes(a + b, wanted) == FirstOnes(a, wanted) + FirstOnes(b, wanted - Ids(a))
  {
    if b == [] {
      assert a + b == a;
    } else {
      var front := b[..|b| - 1];
      assert (a + b)[..|a + b| - 1] == a + front;
      var id := b[|b| - 1];
      FirstOnesConcat(a, front, wanted);
      assert id in a + front <==> id in Ids(a) || id in front;
      ConcatAssociates(FirstOnes(a, wanted), FirstOnes(front, wanted - Ids(a)), if id in wanted && id !in a + front then [id] else []);
    }
  }

  /** When `y` is first mentioned, `x` has been. */
  ghost predicate MentionedFirst(called: seq<string>, x: string, y: string) {
    exists q :: 0 <= q < |called| && called[q] == y && y !in called[..q] && x in called[..q]
  }

  lemma {:induction false} FirstOnesAreMentioned(called: seq<string>, wanted: set<string>)
    ensures forall id :: id in FirstOnes(called, wanted) ==> id in called
  {
    if called != [] {
      FirstOnesAreMentioned(called[..|called| - 1], wanted);
    }
  }

  lemma {:induction false} FirstOnesOrder(called: seq<string>, wanted: set<string>, i: nat, j: nat)
    requires i < j < |FirstOnes(called, wanted)|
    ensures MentionedFirst(called, FirstOnes(called, wanted)[i], FirstOnes(called, wanted)[j])
  {
    var front := called[..|called| - 1];
    var ids, before := FirstOnes(called, wanted), FirstOnes(front, wanted);
    FirstOnesAreMentioned(front, wanted);
    assert ids[i] in front by {
      assert ids[i] == before[i];
    }
    if j < |before| {
      FirstOnesOrder(front, wanted, i, j);
      var q :| 0 <= q < |front| && front[q] == ids[j] && ids[j] !in front[..q] && ids[i] in front[..q];
      assert called[..q] == front[..q];
    } else {
      assert called[|front|] == ids[j];
    }
  }

  lemma {:induction false} MatchedIdsAreFirstOnes(calls: seq<Block>, pool: Pool)
    ensures CallIds(MatchCalls(calls, pool).calls) == FirstOnes(CallIds(calls), pool.Keys)
  {
    if calls != [] {
      var front, c := calls[..|calls| - 1], calls[|calls| - 1];
      MatchedIdsAreFirstOnes(front, pool);
      MatchIds(front, pool);
      assert calls == front + [c];
      MatchedOneMore(front, c, pool);
    }
  }

  lemma MatchedOneMore(calls: seq<Block>, c: Block, pool: Pool)
    requires CallIds(MatchCalls(calls, pool).calls) == FirstOnes(CallIds(calls), pool.Keys)
    requires MatchedIds(calls, pool, MatchCalls(calls, pool))
    ensures CallIds(MatchCalls(calls + [c], pool).calls) == FirstOnes(CallIds(calls + [c]), pool.Keys)
  {
    var before, after := MatchCalls(calls, pool), MatchCalls(calls + [c], pool);
    assert (calls + [c])[..|calls|] == calls;
    CallIdsSnoc(before.calls, c);
    CallIdsSnoc(calls, c);
    if c.ToolCall? {
      FirstOnesSnoc(CallIds(calls), c.id, pool.Keys);
      assert c.id in before.pool <==> c.id in pool.Keys && c.id !in CallIds(calls);
    } else {
      assert CallIds(calls + [c]) == CallIds(calls) && after == before;
    }
  }

  lemma FirstOnesSnoc(called: seq<string>, id: string, wanted: set<string>)
    ensures FirstOnes(called + [id], wanted) ==
              FirstOnes(called, wanted) + (if id in wanted && id !in called then [id] else [])
  {
    assert (called + [id])[..|called|] == called;
  }

  lemma {:induction false} EmittedIdsAreFirstOnes(turns: seq<Turn>, pool: Pool)
    requires forall i :: 0 <= i < |turns| ==> turns[i].role != "tool"
    ensures AllCallIds(Emit(turns, pool).messages) == FirstOnes(CalledBy(turns), pool.Keys)
  {
    if turns != [] {
      var front, t := turns[..|turns| - 1], turns[|turns| - 1];
      var e := Emit(front, pool);
      EmittedIdsAreFirstOnes(front, pool);
      EmitIds(front, pool);
      assert e.pool.Keys == pool.Keys - Ids(CalledBy(front));
      MatchedIdsAreFirstOnes(t.calls, e.pool);
      ExchangeContents(t, e.pool);
      AllCallIdsConcat(e.messages, Exchange(t, e.pool));
      FirstOnesConcat(CalledBy(front), CallIds(t.calls), pool.Keys);
    }
  }

  /**
   * Calls are shown in the order in which they were first recorded, and an id is
   * shown exactly when a group no tool leads calls it and a result of it was
   * recorded.
   */
  lemma CallsKeepTheirOrder(rs: seq<Record>, pool: Pool)
    requires Collects(pool, AllResults(ParseAll(rs)))
    ensures
      var shown := AllCallIds(Rebuilt(rs, pool));
      var called := CallsSpoken(Groups(ParseAll(rs)));
      && (forall i, j :: 0 <= i < j < |shown| ==> MentionedFirst(called, shown[i], shown[j]))
      && (forall id :: id in shown <==> id in called && exists a :: a in AllResults(ParseAll(rs)) && a.call == id)
  {
    var turns := AllTurns(Groups(ParseAll(rs)));
    var all := AllResults(ParseAll(rs));
    EmittedIdsAreFirstOnes(turns, pool);
    CallsOfTheTurns(Groups(ParseAll(rs)));
    var shown := AllCallIds(Rebuilt(rs, pool));
    forall i, j | 0 <= i < j < |shown| ensures MentionedFirst(CalledBy(turns), shown[i], shown[j]) {
      FirstOnesOrder(CalledBy(turns), pool.Keys, i, j);
    }
    forall id ensures id in shown <==> id in CalledBy(turns) && exists a :: a in all && a.call == id {
      ResultsAreConserved(rs, pool, id);
      KeepMembers(ForCall(id), all);
      var mine := Keep(ForCall(id), all);
      if mine != [] {
        assert mine[0] in mine;
      }
    }
  }

  // ---------------------------------------------------------------- answers

  /** The recorded results of the given calls, call by call. */
  function ResultsFor(ids: seq<string>, all: seq<Answer>): seq<Answer> {
    if ids == [] then [] else ResultsFor(ids[..|ids| - 1], all) + Keep(ForCall(ids[|ids| - 1]), all)
  }

  lemma {:induction false} ResultsForConcat(a: seq<string>, b: seq<string>, all: seq<Answer>)
    ensures ResultsFor(a + b, all) == ResultsFor(a, all) + ResultsFor(b, all)
  {
    if b == [] {
      assert a + b == a;
    } else {
      assert (a + b)[..|a + b| - 1] == a + b[..|b| - 1];
      ResultsForConcat(a, b[..|b| - 1], all);
      ConcatAssociates(ResultsFor(a, all), ResultsFor(b[..|b| - 1], all), Keep(ForCall(b[|b| - 1]), all));
    }
  }

  /** A pool whose entries are the results of `all`, perhaps not of every call. */
  ghost predicate PartOf(pool: Pool, all: seq<Answer>) {
    forall id :: id in pool ==> pool[id] == Keep(ForCall(id), all)
  }

  lemma {:induction false} MatchedInCallOrder(calls: seq<Block>, pool: Pool, all: seq<Answer>)
    requires PartOf(pool, all)
    ensures MatchCalls(calls, pool).answers == ResultsFor(CallIds(MatchCalls(calls, pool).calls), all)
  {
    if calls != [] {
      var front, c := calls[..|calls| - 1], calls[|calls| - 1];
      MatchedInCallOrder(front, pool, all);
      MatchIds(front, pool);
      var shown := MatchCalls(front, pool).calls;
      CallIdsSnoc(shown, c);
      if c.ToolCall? {
        assert (CallIds(shown) + [c.id])[..|CallIds(shown)|] == CallIds(shown);
      }
    }
  }

  lemma {:induction false} EmittedInCallOrder(turns: seq<Turn>, pool: Pool, all: seq<Answer>)
    requires PartOf(pool, all)
    requires forall i :: 0 <= i < |turns| ==> turns[i].role != "tool"
    ensures Delivered(Emit(turns, pool).messages) == ResultsFor(AllCallIds(Emit(turns, pool).messages), all)
  {
    if turns != [] {
      var front, t := turns[..|turns| - 1], turns[|turns| - 1];
      var e := Emit(front, pool);
      EmittedInCallOrder(front, pool, all);
      EmitIds(front, pool);
      MatchedInCallOrder(t.calls, e.pool, all);
      ExchangeContents(t, e.pool);
      AllCallIdsConcat(e.messages, Exchange(t, e.pool));
      DeliveredConcat(e.messages, Exchange(t, e.pool));
      ResultsForConcat(AllCallIds(e.messages), AllCallIds(Exchange(t, e.pool)), all);
    }
  }

  /** The results stand in the order of the calls they answer, those of one call in arrival order. */
  lemma ResultsFollowTheCalls(rs: seq<Record>, pool: Pool)
    requires Collects(pool, AllResults(ParseAll(rs)))
    ensures Delivered(Rebuilt(rs, pool)) == ResultsFor(AllCallIds(Rebuilt(rs, pool)), AllResults(ParseAll(rs)))
  {
    EmittedInCallOrder(AllTurns(Groups(ParseAll(rs))), pool, AllResults(ParseAll(rs)));
  }

  /** A tool message is one recorded result, word for word. */
  ghost predicate RecordedResult(m: Message, r: Record) {
    && r.kind == Some("tool_result") && r.id.Some? && r.call.Some? && r.text.Some?
    && m == Message("tool", [ToolResult(r.call.value, r.text.value, r.error == Some(true))], r.id.value)
  }

  lemma {:induction false} ResultsAreRecorded(rs: seq<Record>, a: Answer)
    requires a in AllResults(ParseAll(rs))
    ensures exists k :: 0 <= k < |rs| && RecordedResult(ToolMessage(a), rs[k])
  {
    if rs != [] {
      var front, r := rs[..|rs| - 1], rs[|rs| - 1];
      if Parse(r).Some? {
        AllResultsSnoc(ParseAll(front), Parse(r).value);
      }
      if a in AllResults(ParseAll(front)) {
        ResultsAreRecorded(front, a);
        var k :| 0 <= k < |front| && RecordedResult(ToolMessage(a), front[k]);
        assert rs[k] == front[k];
      } else {
        assert RecordedResult(ToolMessage(a), rs[|rs| - 1]);
      }
    }
  }

  /** What a message in an emission is: a result in the pool, or a speaker. */
  ghost predicate Emitted(m: Message, turns: seq<Turn>, all: seq<Answer>) {
    if m.role == "tool" then exists a :: a in all && m == ToolMessage(a)
    else exists t :: t in turns && SpeaksAs(m, t)
  }

  /** The speaker of a turn: its text when there is any, then calls of that turn. */
  ghost predicate SpeaksAs(m: Message, t: Turn) {
    && m.role == t.role && m.source == t.source && |TextBlock(t.text)| <= |m.content|
    && m.content[..|TextBlock(t.text)|] == TextBlock(t.text)
    && forall i :: |TextBlock(t.text)| <= i < |m.content| ==> LeadsIn(m.content[i], t.calls)
  }

  /** A call block that is the first with its id among `blocks`. */
  ghost predicate LeadsIn(call: Block, blocks: seq<Block>) {
    call.ToolCall? && exists k :: LeadsAt(call, blocks, k)
  }

  ghost predicate LeadsAt(call: Block, blocks: seq<Block>, k: int)
    requires call.ToolCall?
  {
    && 0 <= k < |blocks| && blocks[k] == call
    && forall j :: 0 <= j < k && blocks[j].ToolCall? ==> blocks[j].id != call.id
  }

  lemma LeadsLonger(call: Block, blocks: seq<Block>, more: seq<Block>)
    requires LeadsIn(call, blocks)
    ensures LeadsIn(call, blocks + more)
  {
    var k :| LeadsAt(call, blocks, k);
    assert LeadsAt(call, blocks + more, k);
  }

  lemma LeadsAtTheEnd(call: Block, blocks: seq<Block>)
    requires call.ToolCall? && call.id !in CallIds(blocks)
    ensures LeadsIn(call, blocks + [call])
  {
    CallIdsAreTheCalls(blocks, call.id);
    assert LeadsAt(call, blocks + [call], |blocks|);
  }

  lemma {:induction false} MatchedCallsLead(calls: seq<Block>, pool: Pool)
    ensures forall c :: c in MatchCalls(calls, pool).calls ==> LeadsIn(c, calls)
  {
    if calls != [] {
      var front, last := calls[..|calls| - 1], calls[|calls| - 1];
      MatchedCallsLead(front, pool);
      MatchIds(front, pool);
      assert calls == front + [last];
      forall c | c in MatchCalls(calls, pool).calls ensures LeadsIn(c, calls) {
        if c in MatchCalls(front, pool).calls {
          LeadsLonger(c, front, [last]);
        } else {
          LeadsAtTheEnd(last, front);
        }
      }
    }
  }

  lemma MatchedAnswersAreHeld(calls: seq<Block>, pool: Pool, all: seq<Answer>)
    requires PartOf(pool, all)
    ensures forall a :: a in MatchCalls(calls, pool).answers ==> a in all
    decreases |calls|
  {
    if calls != [] {
      var front, c := calls[..|calls| - 1], calls[|calls| - 1];
      MatchedAnswersAreHeld(front, pool, all);
      MatchIds(front, pool);
      if c.ToolCall? && c.id in pool {
        KeepMembers(ForCall(c.id), all);
      }
    }
  }

  lemma ExchangeIsEmitted(t: Turn, pool: Pool, all: seq<Answer>, m: Message)
    requires PartOf(pool, all) && t.role != "tool"
    requires m in Exchange(t, pool)
    ensures Emitted(m, [t], all)
  {
    var matched := MatchCalls(t.calls, pool);
    MatchedCallsLead(t.calls, pool);
    MatchedAnswersAreHeld(t.calls, pool, all);
    if m in Speaker(t, pool) {
      assert t in [t];
      var said := TextBlock(t.text);
      forall i | |said| <= i < |m.content| ensures LeadsIn(m.content[i], t.calls) {
        assert m.content[i] == matched.calls[i - |said|];
      }
      assert SpeaksAs(m, t);
    } else {
      var i :| 0 <= i < |matched.answers| && m == ToolMessage(matched.answers[i]);
      assert matched.answers[i] in all;
    }
  }

  lemma {:induction false} EmissionIsEmitted(turns: seq<Turn>, pool: Pool, all: seq<Answer>, m: Message)
    requires PartOf(pool, all)
    requires forall i :: 0 <= i < |turns| ==> turns[i].role != "tool"
    requires m in Emit(turns, pool).messages
    ensures Emitted(m, turns, all)
  {
    if turns != [] {
      var front, t := turns[..|turns| - 1], turns[|turns| - 1];
      var e := Emit(front, pool);
      EmitIds(front, pool);
      if m in e.messages {
        EmissionIsEmitted(front, pool, all, m);
      } else {
        ExchangeIsEmitted(t, e.pool, all, m);
      }
    }
  }

  lemma {:induction false} TurnsComeFromGroups(gs: seq<Group>, t: Turn)
    requires t in AllTurns(gs)
    ensures exists k :: 0 <= k < |gs| && t in TurnsOf(gs[k])
  {
    if gs != [] {
      var front := gs[..|gs| - 1];
      if t in AllTurns(front) {
        TurnsComeFromGroups(front, t);
        var k :| 0 <= k < |front| && t in TurnsOf(front[k]);
        assert gs[k] == front[k];
      } else {
        assert t in TurnsOf(gs[|gs| - 1]);
      }
    }
  }

  lemma {:induction false} CallsLeadInTheirGroup(es: seq<Entry>, call: Block)
    requires LeadsIn(call, CallsOf(es))
    ensures LeadsIn(call, BlocksOf(es))
  {
    if es != [] {
      var front, e := es[..|es| - 1], es[|es| - 1];
      var k :| LeadsAt(call, CallsOf(es), k);
      assert BlocksOf(es) == BlocksOf(front) + [e.block];
      assert es == front + [e];
      CallsOfSnoc(front, e);
      if k < |CallsOf(front)| {
        assert forall j :: 0 <= j <= k ==> CallsOf(front)[j] == CallsOf(es)[j];
        assert LeadsAt(call, CallsOf(front), k);
        CallsLeadInTheirGroup(front, call);
        LeadsLonger(call, BlocksOf(front), [e.block]);
      } else {
        assert forall j :: 0 <= j < |CallsOf(front)| ==> CallsOf(front)[j] == CallsOf(es)[j];
        CallIdsAreTheCalls(CallsOf(front), call.id);
        CallsAreRecorded(front);
        LeadsAtTheEnd(call, BlocksOf(front));
      }
    }
  }

  /**
   * A speaker of group `g`: the role and the source of its first entry, the text
   * of the group when there is any, and then calls recorded in the group, each
   * the first with its id there.
   */
  ghost predicate SpeaksFor(m: Message, g: Group) {
    var text := JoinLines(TextsOf(g));
    var n := if text == "" then 0 else 1;
    && g[0].role != "tool" && m.role == g[0].role && m.source == g[0].source
    && n <= |m.content| && (n == 1 ==> m.content[0] == Text(text))
    && forall i :: n <= i < |m.content| ==> LeadsIn(m.content[i], BlocksOf(g))
  }

  lemma TurnSpeaksForItsGroup(m: Message, t: Turn, g: Group)
    requires t in TurnsOf(g) && SpeaksAs(m, t)
    ensures SpeaksFor(m, g)
  {
    var said := |TextBlock(t.text)|;
    assert said == 1 ==> m.content[0] == m.content[..said][0];
    forall i | said <= i < |m.content| ensures LeadsIn(m.content[i], BlocksOf(g)) {
      CallsLeadInTheirGroup(g, m.content[i]);
    }
  }

  /**
   * Nothing is made up. Each message of a rebuilt history is either one recorded
   * result, word for word, under the role "tool", or the speaker of a group.
   */
  lemma NothingIsMadeUp(rs: seq<Record>, pool: Pool, m: Message)
    requires Collects(pool, AllResults(ParseAll(rs))) && m in Rebuilt(rs, pool)
    ensures
      if m.role == "tool" then exists k :: 0 <= k < |rs| && RecordedResult(m, rs[k])
      else exists k :: 0 <= k < |Groups(ParseAll(rs))| && SpeaksFor(m, Groups(ParseAll(rs))[k])
  {
    var gs := Groups(ParseAll(rs));
    var all := AllResults(ParseAll(rs));
    EmissionIsEmitted(AllTurns(gs), pool, all, m);
    if m.role == "tool" {
      var a :| a in all && m == ToolMessage(a);
      ResultsAreRecorded(rs, a);
    } else {
      var t :| t in AllTurns(gs) && SpeaksAs(m, t);
      TurnsComeFromGroups(gs, t);
      var k :| 0 <= k < |gs| && t in TurnsOf(gs[k]);
      TurnSpeaksForItsGroup(m, t, gs[k]);
    }
  }

  /** Every record of a result is among the results, in the order of the records. */
  lemma {:induction false} ResultsConcatenate(a: seq<Entry>, b: seq<Entry>)
    ensures AllResults(a + b) == AllResults(a) + AllResults(b)
  {
    if b == [] {
      assert a + b == a;
    } else {
      assert (a + b)[..|a + b| - 1] == a + b[..|b| - 1];
      ResultsConcatenate(a, b[..|b| - 1]);
      ConcatAssociates(AllResults(a), AllResults(b[..|b| - 1]), ResultsOf(b[|b| - 1]));
    }
  }

  lemma ResultsOfARecord(r: Record)
    ensures AllResults(ParseAll([r])) ==
              if r.id.Some? && r.kind == Some("tool_result") && r.call.Some? && r.text.Some?
              then [Answer(r.call.value, r.text.value, r.id.value, r.error == Some(true))] else []
  {
    ParseAllSingle(r);
    if Parse(r).Some? {
      AllResultsSnoc([], Parse(r).value);
      assert [] + [Parse(r).value] == [Parse(r).value];
    }
  }

  /** What the observers see in one message. */
  lemma ObservedMessage(m: Message)
    ensures Delivered([m]) ==
              if m.role == "tool" && |m.content| == 1 && m.content[0].ToolResult?
              then [Answer(m.content[0].call, m.content[0].content, m.source, m.content[0].isError)] else []
    ensures SpeechesOf([m]) ==
              if m.role != "tool" && m.content != [] && m.content[0].Text?
              then [Speech(m.role, m.source, m.content[0].body)] else []
    ensures AllCallIds([m]) == CallIds(m.content)
  {
    assert [m][..0] == [];
  }
}
