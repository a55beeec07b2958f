/**
 * Admitting a model turn into a context window (agent/src/fusion.rs,
 * `ContextProvider::stream_model` and `request_context_bytes`;
 * orchestration/fusion/src/context.rs, `guard_context`).
 */
module Budget {
  import opened Wrappers

  const MAX_USIZE: int := 0xFFFF_FFFF_FFFF_FFFF
  const MAX_I32: int := 0x7FFF_FFFF
  const CONTEXT_MARGIN: nat := 8192
  const LEAST_OUTPUT: nat := 256

  type I32 = x: int | -MAX_I32 - 1 <= x <= MAX_I32

  type Usize = x: int | 0 <= x <= MAX_USIZE

  function SaturatingAdd(a: Usize, b: Usize): Usize {
    if a as int + b as int > MAX_USIZE then MAX_USIZE else a as int + b as int
  }

  function SaturatingSub(a: Usize, b: Usize): Usize {
    if a < b then 0 else a as int - b as int
  }

  function Least(a: Usize, b: Usize): Usize {
    if a <= b then a else b
  }

  // ---------------------------------------------------------------- sizes

  datatype Block =
    | Prose(text: Usize)                         // text and reasoning
    | ToolAnswer(content: Usize, callId: Usize)
    | Encoded(json: Usize)                       // everything else, by its JSON length

  datatype Message = Message(role: Usize, blocks: seq<Block>)

  datatype Request = Request(systemPrompt: Usize, toolsJson: Usize, messages: seq<Message>)

  function BlockBytes(b: Block): int {
    32 + match b
      case Prose(text) => text as int
      case ToolAnswer(content, callId) => content as int + callId as int
      case Encoded(json) => json as int
  }

  function BlocksBytes(bs: seq<Block>): int {
    if bs == [] then 0 else BlocksBytes(bs[..|bs| - 1]) + BlockBytes(bs[|bs| - 1])
  }

  function MessageBytes(m: Message): int {
    m.role as int + 32 + BlocksBytes(m.blocks)
  }

  function MessagesBytes(ms: seq<Message>): int {
    if ms == [] then 0 else MessagesBytes(ms[..|ms| - 1]) + MessageBytes(ms[|ms| - 1])
  }

  /** The size of a request, without any limit on the numbers. */
  function ExactBytes(r: Request): int {
    r.systemPrompt as int + r.toolsJson as int + MessagesBytes(r.messages)
  }

  function Clamp(x: int): int {
    if x > MAX_USIZE then MAX_USIZE else x
  }

  /** Saturation sets in at 64 bits, and the model's own limit has 32, with a sign. */
  lemma Widths(x: int)
    ensures Clamp(x) == if x <= 0xFFFF_FFFF_FFFF_FFFF then x else 0xFFFF_FFFF_FFFF_FFFF
    ensures -0x8000_0000 <= x <= 0x7FFF_FFFF <==> -MAX_I32 - 1 <= x <= MAX_I32
  {
  }

  lemma {:induction false} BlocksArePositive(bs: seq<Block>)
    ensures BlocksBytes(bs) >= 32 * |bs|
  {
    if bs != [] {
      BlocksArePositive(bs[..|bs| - 1]);
    }
  }

  lemma {:induction false} MessagesArePositive(ms: seq<Message>)
    ensures MessagesBytes(ms) >= 32 * |ms|
  {
    if ms != [] {
      MessagesArePositive(ms[..|ms| - 1]);
      BlocksArePositive(ms[|ms| - 1].blocks);
    }
  }

  lemma {:induction false} MessagesConcat(a: seq<Message>, b: seq<Message>)
    ensures MessagesBytes(a + b) == MessagesBytes(a) + MessagesBytes(b)
  {
    if b == [] {
      assert a + b == a;
    } else {
      assert (a + b)[..|a + b| - 1] == a + b[..|b| - 1];
      MessagesConcat(a, b[..|b| - 1]);
    }
  }

  /** One block more; `before` is the exact sum so far. */
  method AddBlock(sum: Usize, b: Block, ghost before: int) returns (bytes: Usize)
    requires before >= 0 && sum == Clamp(before)
    ensures bytes == Clamp(before + BlockBytes(b))
  {
    var size: Usize := match b
      case Prose(text) => text
      case ToolAnswer(content, callId) => SaturatingAdd(content, callId)
      case Encoded(json) => json;
    bytes := SaturatingAdd(SaturatingAdd(sum, size), 32);
  }

  /** One message more, block after block. */
  method AddMessage(sum: Usize, m: Message, ghost before: int) returns (bytes: Usize)
    requires before >= 0 && sum == Clamp(before)
    ensures bytes == Clamp(before + MessageBytes(m))
  {
    bytes := SaturatingAdd(SaturatingAdd(sum, m.role), 32);
    for k := 0 to |m.blocks|
      invariant bytes == Clamp(before + m.role as int + 32 + BlocksBytes(m.blocks[..k]))
    {
      assert m.blocks[..k + 1][..k] == m.blocks[..k];
      BlocksArePositive(m.blocks[..k]);
      bytes := AddBlock(bytes, m.blocks[k], before + m.role as int + 32 + BlocksBytes(m.blocks[..k]));
    }
    assert m.blocks[..|m.blocks|] == m.blocks;
  }

  /** Adding up with saturation at every step is adding up exactly and saturating once. */
  method RequestContextBytes(r: Request) returns (bytes: Usize)
    ensures bytes == Clamp(ExactBytes(r))
  {
    bytes := r.systemPrompt;
    bytes := SaturatingAdd(bytes, r.toolsJson);
    for i := 0 to |r.messages|
      invariant bytes == Clamp(r.systemPrompt as int + r.toolsJson as int + MessagesBytes(r.messages[..i]))
    {
      assert r.messages[..i + 1][..i] == r.messages[..i];
      MessagesArePositive(r.messages[..i]);
      bytes := AddMessage(bytes, r.messages[i], r.systemPrompt as int + r.toolsJson as int + MessagesBytes(r.messages[..i]));
    }
    assert r.messages[..|r.messages|] == r.messages;
  }

  /** A conversation never gets smaller, and grows by exactly what is appended. */
  lemma AppendingGrows(r: Request, more: seq<Message>)
    ensures
      var grown := r.(messages := r.messages + more);
      && ExactBytes(grown) == ExactBytes(r) + MessagesBytes(more)
      && Clamp(ExactBytes(r)) <= Clamp(ExactBytes(grown)) <= Clamp(ExactBytes(r)) + MessagesBytes(more)
  {
    MessagesConcat(r.messages, more);
    MessagesArePositive(more);
  }

  /** An empty conversation costs its prompt and its tools. */
  lemma NothingSaid(prompt: Usize, tools: Usize)
    ensures ExactBytes(Request(prompt, tools, [])) == prompt as int + tools as int
  {
  }

  /** A message costs its role and 32 more, before any block. */
  lemma OneMessageMore(r: Request, role: Usize)
    ensures ExactBytes(r.(messages := r.messages + [Message(role, [])])) == ExactBytes(r) + role as int + 32
  {
    assert (r.messages + [Message(role, [])])[..|r.messages|] == r.messages;
  }

  /** A block of the last message costs its text, or its content and call id, or its JSON, and 32 more. */
  lemma OneBlockMore(r: Request, m: Message, b: Block)
    ensures
      ExactBytes(r.(messages := r.messages + [m.(blocks := m.blocks + [b])])) ==
      ExactBytes(r.(messages := r.messages + [m])) + 32 +
      match b
      case Prose(text) => text as int
      case ToolAnswer(content, callId) => content as int + callId as int
      case Encoded(json) => json as int
  {
    assert (m.blocks + [b])[..|m.blocks|] == m.blocks;
    assert (r.messages + [m])[..|r.messages|] == r.messages;
    assert (r.messages + [m.(blocks := m.blocks + [b])])[..|r.messages|] == r.messages;
  }

  // ---------------------------------------------------------------- admission

  datatype Settings = Settings(contextWindow: Usize, maxOutputTokens: I32, reportRevision: nat)

  function RemainingWindow(bytes: Usize, s: Settings): Usize {
    SaturatingSub(s.contextWindow, SaturatingAdd(bytes, CONTEXT_MARGIN))
  }

  /** Room kept for a later repair of the report, in the first revision only. */
  function RepairReserve(bytes: Usize, s: Settings): Usize {
    if s.reportRevision == 0 then Least(s.contextWindow / 4, RemainingWindow(bytes, s) / 2) else 0
  }

  function OutputFor(bytes: Usize, s: Settings): int {
    var cap := if s.maxOutputTokens < 0 then 0 else s.maxOutputTokens;
    Min(cap, SaturatingSub(RemainingWindow(bytes, s), RepairReserve(bytes, s)))
  }

  predicate GuardContext(bytes: Usize, window: Usize, output: Usize) {
    window > 0 && output > 0 && SaturatingAdd(SaturatingAdd(bytes, output), CONTEXT_MARGIN) <= window
  }

  predicate Admitted(bytes: Usize, s: Settings) {
    OutputFor(bytes, s) >= LEAST_OUTPUT
  }

  /** What is left of the window is what prompt and margin leave, in plain arithmetic. */
  lemma RemainingExactly(bytes: Usize, s: Settings)
    ensures
      var left := s.contextWindow as int - bytes as int - 8192;
      RemainingWindow(bytes, s) as int == if left < 0 then 0 else left
  {
  }

  /** The reserve is the largest that takes no more than a quarter of the window and half of what is left; a repair keeps none. */
  lemma ReserveIsLargest(bytes: Usize, s: Settings, room: nat)
    ensures s.reportRevision == 0 ==>
              (room <= RepairReserve(bytes, s) as int <==>
                 4 * room <= s.contextWindow as int && (room == 0 || bytes as int + 8192 + 2 * room <= s.contextWindow as int))
    ensures s.reportRevision > 0 ==> RepairReserve(bytes, s) == 0
  {
    RemainingExactly(bytes, s);
  }

  /** The grant is the largest within the model's own limit that leaves margin and reserve free. */
  lemma GrantIsLargest(bytes: Usize, s: Settings, output: nat)
    ensures output <= OutputFor(bytes, s) <==>
              || output == 0
              || (output <= s.maxOutputTokens && bytes as int + 8192 + output + RepairReserve(bytes, s) as int <= s.contextWindow as int)
  {
    RemainingExactly(bytes, s);
    ReserveIsLargest(bytes, s, RepairReserve(bytes, s) as int);
  }

  /** A turn is admitted exactly when 256 tokens of output can be granted. */
  lemma AdmittedExactlyWhen(bytes: Usize, s: Settings)
    ensures Admitted(bytes, s) <==>
              256 <= s.maxOutputTokens && bytes as int + 8192 + 256 + RepairReserve(bytes, s) as int <= s.contextWindow as int
  {
    GrantIsLargest(bytes, s, 256);
  }

  /** The guard, in plain arithmetic; where saturation sets in, it passes only the largest window there is. */
  lemma GuardExactly(bytes: Usize, window: Usize, output: Usize)
    ensures GuardContext(bytes, window, output) <==>
              && window > 0 && output > 0
              && (bytes as int + output as int + 8192 <= window as int || window as int == 0xFFFF_FFFF_FFFF_FFFF)
  {
  }

  /** An admitted turn passes the guard, and everything fits the window without saturation. */
  lemma AdmittedFits(bytes: Usize, s: Settings)
    requires Admitted(bytes, s)
    ensures bytes as int + CONTEXT_MARGIN + OutputFor(bytes, s) + RepairReserve(bytes, s) as int <= s.contextWindow as int
    ensures OutputFor(bytes, s) <= s.maxOutputTokens
    ensures GuardContext(bytes, s.contextWindow, OutputFor(bytes, s))
  {
    assert RemainingWindow(bytes, s) > 0;
    assert RemainingWindow(bytes, s) as int == s.contextWindow as int - bytes as int - CONTEXT_MARGIN;
  }

  /**
   * Admit one turn and grant its output limit. The later guard never refuses
   * what the first check let through, the 32-bit clamp never bites, and prompt,
   * margin, grant and reserve together fit the window in plain arithmetic.
   */
  method StreamModel(bytes: Usize, s: Settings) returns (r: Result<int>)
    ensures r.Success? <==> Admitted(bytes, s)
    ensures r.Success? ==>
              && r.value == OutputFor(bytes, s)
              && LEAST_OUTPUT <= r.value <= s.maxOutputTokens
              && bytes as int + CONTEXT_MARGIN + r.value + RepairReserve(bytes, s) as int <= s.contextWindow as int
  {
    var remaining := SaturatingSub(s.contextWindow, SaturatingAdd(bytes, CONTEXT_MARGIN));
    var reserve := if s.reportRevision == 0 then Least(s.contextWindow / 4, remaining / 2) else 0;
    var cap := if s.maxOutputTokens < 0 then 0 else s.maxOutputTokens;
    var output := Least(cap, SaturatingSub(remaining, reserve));
    if output < LEAST_OUTPUT {
      return Failure("Fusion context has no generation space; request was not sent");
    }
    AdmittedFits(bytes, s);
    if !GuardContext(bytes, s.contextWindow, output) {
      return Failure("Fusion context capacity exceeded; request was not sent");
    }
    return Success(if output > MAX_I32 then MAX_I32 else output);
  }

  /** More context never gets a larger grant. */
  lemma GrantShrinksWithContext(bytes: Usize, more: Usize, s: Settings)
    requires bytes <= more
    ensures OutputFor(more, s) <= OutputFor(bytes, s)
    ensures Admitted(more, s) ==> Admitted(bytes, s)
  {
    var a, b := RemainingWindow(bytes, s), RemainingWindow(more, s);
    assert b <= a;
    assert b - RepairReserve(more, s) <= a - RepairReserve(bytes, s);
  }

  /** The settings a repair of the report runs under. */
  function Repairing(s: Settings, revision: nat): Settings {
    s.(reportRevision := revision)
  }

  /**
   * The point of the reserve. After an admitted first-revision turn, a history
   * that has grown by no more than the grant leaves a repair at least the
   * reserved room.
   */
  lemma RepairFindsTheReserve(bytes: Usize, s: Settings, later: Usize, revision: nat)
    requires s.reportRevision == 0 && revision > 0
    requires Admitted(bytes, s) && later <= bytes + OutputFor(bytes, s)
    ensures RemainingWindow(later, Repairing(s, revision)) >= RepairReserve(bytes, s)
    ensures RemainingWindow(later, Repairing(s, revision)) >= RemainingWindow(bytes, s) - OutputFor(bytes, s)
  {
  }

  /**
   * Whether that room is enough to be admitted: a repair is accepted whatever
   * the turn used of its grant, if and only if at least LEAST_OUTPUT of the
   * window is left over by the full grant.
   */
  lemma RepairIsAdmittedExactlyWhen(bytes: Usize, s: Settings, revision: nat)
    requires s.reportRevision == 0 && revision > 0 && Admitted(bytes, s)
    ensures
      (forall later: Usize :: bytes <= later <= bytes + OutputFor(bytes, s) ==> Admitted(later, Repairing(s, revision)))
      <==> RemainingWindow(bytes, s) - OutputFor(bytes, s) >= LEAST_OUTPUT
    ensures RepairReserve(bytes, s) >= LEAST_OUTPUT ==> RemainingWindow(bytes, s) - OutputFor(bytes, s) >= LEAST_OUTPUT
  {
    var worst: Usize := bytes + OutputFor(bytes, s);
    var repair := Repairing(s, revision);
    assert RemainingWindow(worst, repair) == RemainingWindow(bytes, s) - OutputFor(bytes, s);
    if RemainingWindow(bytes, s) - OutputFor(bytes, s) >= LEAST_OUTPUT {
      forall later: Usize | bytes <= later <= worst ensures Admitted(later, repair) {
        GrantShrinksWithContext(later, worst, repair);
      }
    } else {
      assert !Admitted(worst, repair);
    }
  }

  /** It can be too little: an admitted turn whose reserve is one short of what a repair needs. */
  lemma ReserveCanFallOneShort()
    ensures
      var s := Settings(16384, 1000, 0);
      var bytes: Usize := 7681;
      && Admitted(bytes, s)
      && RepairReserve(bytes, s) == LEAST_OUTPUT - 1
      && !Admitted(bytes + OutputFor(bytes, s), Repairing(s, 1))
  {
    var s := Settings(16384, 1000, 0);
    assert RemainingWindow(7681, s) == 511;
    assert OutputFor(7681, s) == 256;
    assert RemainingWindow(7937, Repairing(s, 1)) == 255;
  }
}
