/**
  What the agent makes of its history in one turn of the tool loop. The provider, the tools, the approval gate, the
  memory and the tokenizer are arbitrary functions of their input and of a counter that advances with every call.
*/
module AgentTurn {
  import opened Prelude
  import opened Text
  import opened Chat
  import opened Compaction
  import opened ContextGuard
  import opened History
  import opened LoopDetect
  import opened Pruning
  import opened TranscriptRepair

  const MAX_OVERFLOW_COMPACTION_ATTEMPTS := 3
  const MAX_TOOL_CHARS := 400_000
  const MIN_KEEP := 2_000
  const TRUNCATION_SUFFIX :=
    "\n\n[Content truncated — original was too large for the model's context window. If you need more, request specific sections or use offset/limit parameters.]"

  datatype Approval = Approved | Denied | NeedsApproval

  datatype Reply =
    | Completion(content: string, toolCalls: Option<seq<ToolCall>>)
    | NoChoices
    | ContextOverflow
    | ChatFailed

  datatype Outcome = Answer(text: string) | LoopStopped | ModelFailed | IterationsExhausted

  datatype Settings = Settings(
    systemPrompt: Option<string>,
    maxIterations: nat,
    historyLimit: Option<nat>,
    pruning: Option<PruningConfig>,
    compaction: Option<CompactionConfig>,
    modelMaxTokens: Option<nat>,
    guard: Option<GuardConfig>,
    gated: bool)

  datatype World = World(
    chat: (nat, seq<ChatMessage>) -> Reply,
    summarize: (nat, seq<ChatMessage>) -> Option<string>,
    execute: (nat, ToolCall) -> Result<string, string>,
    approve: (nat, string) -> Approval,
    approvalId: nat -> string,
    recall: (nat, string) -> Option<string>,
    tokens: string -> nat,
    usedTokens: seq<ChatMessage> -> nat,
    hash: Hash,
    loopMessage: Detection -> string)

  /** A history the loop may start from and leaves behind. */
  ghost predicate Sound(h: seq<ChatMessage>) {
    Answered(h) && ToolsCarryNoCalls(h)
  }

  /** What is promised of every request. */
  ghost predicate SoundRequest(settings: Settings, r: seq<ChatMessage>) {
    && Answered(r)
    && (settings.historyLimit.Some? && settings.historyLimit.value > 0 ==> NoOrphans(r))
  }

  function TruncateResult(s: string, maxChars: nat): string {
    if ByteLen(s) <= maxChars then s
    else
      var kept := KeepBytes(s, Max(SaturatingSub(maxChars, ByteLen(TRUNCATION_SUFFIX)), MIN_KEEP));
      var head := BeforeLastNewline(kept);
      (if head.Some? && ByteLen(head.value) > ByteLen(kept) * 4 / 5 then head.value else kept) + TRUNCATION_SUFFIX
  }

  /** What is sent: the pruned history, limited to its last turns. */
  function Prepared(settings: Settings, h: seq<ChatMessage>): seq<ChatMessage> {
    var pruned := if settings.pruning.Some? then PrunedAll(h, settings.pruning.value) else h;
    if settings.historyLimit.Some? then Limited(pruned, settings.historyLimit.value) else pruned
  }

  /** A request is the history, pruned if that is configured, and then limited if that is. */
  lemma PreparedMeaning(settings: Settings, h: seq<ChatMessage>) returns (pruned: seq<ChatMessage>)
    ensures match settings.pruning case None => pruned == h case Some(config) => pruned == PrunedAll(h, config)
    ensures match settings.historyLimit
      case None => Prepared(settings, h) == pruned
      case Some(turns) => Prepared(settings, h) == Limited(pruned, turns)
  {
    pruned := if settings.pruning.Some? then PrunedAll(h, settings.pruning.value) else h;
  }

  /** Pruning and turn limiting of a sound history give a sound request. */
  lemma PreparedIsSound(settings: Settings, h: seq<ChatMessage>)
    requires Sound(h)
    ensures SoundRequest(settings, Prepared(settings, h))
  {
    var pruned := h;
    if settings.pruning.Some? {
      pruned := PrunedAll(h, settings.pruning.value);
      PruningEditsOnlyToolContents(h, settings.pruning.value);
      ShapeKeepsPairing(h, pruned);
    }
    if settings.historyLimit.Some? {
      LimitKeepsAnswered(pruned, settings.historyLimit.value);
      if settings.historyLimit.value > 0 {
        LimitDropsOrphans(pruned, settings.historyLimit.value);
      }
    }
  }

  function OverflowNote(size: nat): string {
    "...\n[truncated" + " for context" + " limit, " + Decimal(size) + " chars total]"
  }

  /** The largest tool result is cut to half, at a line break if there is one. */
  function OverflowCut(content: string): string {
    CutAtNewline(KeepBytes(content, ByteLen(content) / 2)) + OverflowNote(ByteLen(content))
  }

  lemma OverflowNoteLength(size: nat)
    ensures ByteLen(OverflowNote(size)) == 47 + |Decimal(size)|
  {
    var a, b, c, d := "...\n[truncated", " for context", " limit, ", " chars total]";
    AsciiByteLen(a);
    AsciiByteLen(b);
    AsciiByteLen(c);
    AsciiByteLen(d);
    DecimalLength(size);
    ByteLenAppend(a, b);
    ByteLenAppend(a + b, c);
    ByteLenAppend(a + b + c, Decimal(size));
    ByteLenAppend(a + b + c + Decimal(size), d);
  }

  /**
    The cut keeps the longest front part within half the bytes, back to its last newline. There is no smallest
    size: it shortens every result of 101 bytes or more, and none of 49 or less.
  */
  lemma OverflowCutShrinksIff(content: string) returns (kept: string)
    ensures FrontPart(content, ByteLen(content) / 2, kept) && OverflowCut(content) == kept + OverflowNote(ByteLen(content))
    ensures ByteLen(OverflowCut(content)) < ByteLen(content)
       <==> ByteLen(content) - ByteLen(kept) > 47 + |Decimal(ByteLen(content))|
    ensures ByteLen(content) >= 101 ==> ByteLen(OverflowCut(content)) < ByteLen(content)
    ensures ByteLen(content) <= 49 ==> ByteLen(OverflowCut(content)) >= ByteLen(content)
  {
    var size := ByteLen(content);
    kept := CutAtNewline(KeepBytes(content, size / 2));
    CutIsFrontPart(content, size / 2);
    FrontPartIsShort(content, size / 2, kept);
    ByteLenAppend(kept, OverflowNote(size));
    OverflowNoteLength(size);
    OverflowArithmetic(size, ByteLen(kept));
  }

  lemma OverflowArithmetic(size: nat, kept: nat)
    requires kept <= size / 2
    ensures size >= 101 ==> size - kept > 47 + |Decimal(size)|
    ensures size <= 49 ==> size - kept <= 47 + |Decimal(size)|
    ensures kept == size / 2 ==> (size - kept > 47 + |Decimal(size)| <==> size == 99 || size >= 101)
  {
    if size < 1000 {
      DecimalDigits(size);
    } else {
      DecimalLength(size);
    }
  }

  /** Of the results of one ASCII line it shortens exactly those of 99 bytes and those of 101 or more. */
  lemma OverflowCutOfLineIff(content: string)
    requires '\n' !in content && forall i | 0 <= i < |content| :: content[i] < '\U{80}'
    ensures ByteLen(OverflowCut(content)) < ByteLen(content) <==> |content| == 99 || |content| >= 101
  {
    var n := |content|;
    AsciiByteLen(content);
    var kept := OverflowCutShrinksIff(content);
    HalfOfLine(content, kept);
    OverflowArithmetic(n, n / 2);
  }

  lemma HalfOfLine(content: string, kept: string)
    requires '\n' !in content && forall i | 0 <= i < |content| :: content[i] < '\U{80}'
    requires FrontPart(content, |content| / 2, kept)
    ensures ByteLen(kept) == |content| / 2
  {
    var half := |content| / 2;
    var window :| LongestWithin(content, half, window) && BeforeLastLine(window, kept);
    assert window == content[..|window|] && '\n' !in window;
    AsciiByteLen(window);
    AsciiByteLen(content[..half]);
    assert content[..half] <= content;
  }

  /** An overflow cuts the last of the largest tool results, and nothing else. */
  lemma OverflowMeaning(h: seq<ChatMessage>)
    ensures
      || (h == HalveForOverflow(h) && forall m | m in h :: !m.role.Tool?)
      || exists k: nat :: IsLargestTool(h, k) && HalveForOverflow(h) == h[k := h[k].(content := OverflowCut(h[k].content))]
  {
    var largest := LargestTool(h);
    if largest.Some? {
      assert IsLargestTool(h, largest.value);
    }
  }

  function HalveForOverflow(h: seq<ChatMessage>): seq<ChatMessage> {
    match LargestTool(h)
    case None => h
    case Some(k) => h[k := h[k].(content := OverflowCut(h[k].content))]
  }

  lemma HalvingHasShape(h: seq<ChatMessage>)
    ensures SameShape(h, HalveForOverflow(h)) && |HalveForOverflow(h)| == |h|
  {
    match LargestTool(h)
    case None =>
    case Some(k) => ShapeOfEdit(h, k, OverflowCut(h[k].content));
  }

  lemma HalvingKeepsSound(h: seq<ChatMessage>)
    requires Sound(h)
    ensures Sound(HalveForOverflow(h)) && |HalveForOverflow(h)| == |h|
  {
    HalvingHasShape(h);
    ShapeKeepsPairing(h, HalveForOverflow(h));
  }

  function GuardedHistory(settings: Settings, world: World, h: seq<ChatMessage>): seq<ChatMessage> {
    if settings.guard.Some? && CheckBudget(settings.guard.value, world.usedTokens(h)).TruncateNeeded?
    then Guarded(h, settings.guard.value, world.tokens, world.usedTokens)
    else h
  }

  /** The guard acts exactly when it is configured and more than the budget is used. */
  lemma GuardActsIff(settings: Settings, world: World, h: seq<ChatMessage>)
    ensures
      if settings.guard.Some? && world.usedTokens(h) > InputBudget(settings.guard.value)
      then GuardedHistory(settings, world, h) == Guarded(h, settings.guard.value, world.tokens, world.usedTokens)
      else GuardedHistory(settings, world, h) == h
  {
  }

  lemma GuardHasShape(settings: Settings, world: World, h: seq<ChatMessage>)
    ensures SameShape(h, GuardedHistory(settings, world, h)) && |GuardedHistory(settings, world, h)| == |h|
  {
    if settings.guard.Some? {
      GuardEditsOnlyToolContents(h, settings.guard.value, world.tokens, world.usedTokens);
    }
  }

  lemma GuardKeepsSound(settings: Settings, world: World, h: seq<ChatMessage>)
    requires Sound(h)
    ensures Sound(GuardedHistory(settings, world, h)) && |GuardedHistory(settings, world, h)| == |h|
    ensures ResultsUnique(h) ==> ResultsUnique(GuardedHistory(settings, world, h))
  {
    GuardHasShape(settings, world, h);
    ShapeKeepsPairing(h, GuardedHistory(settings, world, h));
    if ResultsUnique(h) {
      ShapeKeepsUnique(h, GuardedHistory(settings, world, h));
    }
  }

  /** What the model is told about one call. */
  function CallContent(settings: Settings, world: World, now: nat, tc: ToolCall): string {
    if settings.gated && world.approve(now, tc.name).Denied? then
      "Tool '" + tc.name + "' denied by approval policy"
    else if settings.gated && world.approve(now, tc.name).NeedsApproval? then
      "Tool '" + tc.name + "' requires approval (request_id=" + world.approvalId(now) + ")"
    else
      match world.execute(now, tc)
      case Ok(output) => TruncateResult(output, MAX_TOOL_CHARS)
      case Err(error) => "Error: " + error
  }

  /** `now` is a tool's output: as it is, or its longest front part in bounds, cut back to a late last newline, and a note. */
  ghost predicate IsTruncated(before: string, maxChars: nat, now: string) {
    if ByteLen(before) <= maxChars then now == before
    else
      exists window, kept ::
        && LongestWithin(before, Max(SaturatingSub(maxChars, ByteLen(TRUNCATION_SUFFIX)), 2_000), window)
        && now == kept + TRUNCATION_SUFFIX && CutBack(window, kept)
  }

  /** The cut goes back to the last newline if that loses less than a fifth. */
  ghost predicate CutBack(window: string, kept: string) {
    exists head ::
      && BeforeLastLine(window, head)
      && kept == if '\n' in window && 5 * ByteLen(head) > 4 * ByteLen(window) then head else window
  }

  lemma CutBackIs(window: string, kept: string)
    requires
      var head := BeforeLastNewline(window);
      kept == if head.Some? && ByteLen(head.value) > ByteLen(window) * 4 / 5 then head.value else window
    ensures CutBack(window, kept)
  {
    CutAtNewlineMeaning(window);
    assert BeforeLastLine(window, CutAtNewline(window));
  }

  lemma TruncationMeaning(s: string, maxChars: nat)
    ensures IsTruncated(s, maxChars, TruncateResult(s, maxChars))
  {
    if ByteLen(s) > maxChars {
      var bytes: nat := Max(SaturatingSub(maxChars, ByteLen(TRUNCATION_SUFFIX)), MIN_KEEP);
      var window := KeepBytes(s, bytes);
      KeepBytesIsLongest(s, bytes);
      var head := BeforeLastNewline(window);
      var kept := if head.Some? && ByteLen(head.value) > ByteLen(window) * 4 / 5 then head.value else window;
      CutBackIs(window, kept);
    }
  }

  /** An executed call is answered with its output, in bounds, or its error; one that is not approved is never executed. */
  lemma CallContentMeaning(settings: Settings, world: World, now: nat, tc: ToolCall)
    ensures
      var content := CallContent(settings, world, now, tc);
      if !settings.gated || world.approve(now, tc.name).Approved?
      then match world.execute(now, tc)
           case Ok(output) => IsTruncated(output, 400_000, content)
           case Err(error) => content == "Error: " + error
      else
        forall other: World | other.approve == world.approve && other.approvalId == world.approvalId ::
          CallContent(settings, other, now, tc) == content
  {
    if world.execute(now, tc).Ok? {
      TruncationMeaning(world.execute(now, tc).value, MAX_TOOL_CHARS);
    }
  }

  function WarningFor(world: World, d: Detection): seq<ChatMessage> {
    if d.level.Warning? then [ChatMessage(User, world.loopMessage(d), Some("system"), None, None)] else []
  }

  function ResultMessage(tc: ToolCall, content: string): ChatMessage {
    ChatMessage(Tool, content, Some(tc.name), None, Some(tc.id))
  }

  /** The loaded transcript with the current system prompt in front. */
  function WithPrompt(h: seq<ChatMessage>, prompt: Option<string>): seq<ChatMessage> {
    match prompt
    case None => h
    case Some(text) =>
      if h == [] then [Plain(System, text)]
      else if h[0].role.System? then h[0 := Plain(System, text)]
      else [Plain(System, text)] + h
  }

  /** The prompt stands in front, in place of the system message that stood there, if one did. */
  lemma WithPromptMeaning(h: seq<ChatMessage>, prompt: Option<string>)
    ensures match prompt
      case None => WithPrompt(h, prompt) == h
      case Some(text) =>
        var rest := if h != [] && h[0].role == System then h[1..] else h;
        WithPrompt(h, prompt) == [ChatMessage(System, text, None, None, None)] + rest
  {
  }

  lemma WithPromptKeepsPairing(h: seq<ChatMessage>, prompt: Option<string>)
    ensures Answered(WithPrompt(h, prompt)) <==> Answered(h)
  {
    if prompt.Some? && h != [] {
      var current := Plain(System, prompt.value);
      if h[0].role.System? {
        assert h[0 := current] == [current] + h[1..] && h == [h[0]] + h[1..];
        AnsweredPrepend(current, h[1..]);
        AnsweredPrepend(h[0], h[1..]);
      } else {
        AnsweredPrepend(current, h);
      }
    }
  }

  lemma WithPromptKeepsCallFree(h: seq<ChatMessage>, prompt: Option<string>)
    requires ToolsCarryNoCalls(h)
    ensures ToolsCarryNoCalls(WithPrompt(h, prompt))
  {
    forall m | m in WithPrompt(h, prompt) && m.role.Tool? ensures m in h {
    }
  }

  lemma AppendKeepsSound(h: seq<ChatMessage>, m: ChatMessage)
    requires Sound(h) && Calls(m) == [] && (m.role.Tool? ==> m.toolCalls.None?)
    ensures Sound(h + [m])
  {
    NothingPending(h);
    AppendKeepsPairing(h, m, [], []);
    NothingPending(h + [m]);
  }

  /** The results appended since `before` answer `calls`, one each and in order. */
  ghost predicate AnswersInOrder(before: seq<ChatMessage>, h: seq<ChatMessage>, calls: seq<ToolCall>) {
    before <= h && ToolIds(h[|before|..]) == IdsOf(calls)
  }

  ghost predicate NoNewCalls(before: seq<ChatMessage>, h: seq<ChatMessage>) {
    forall i | |before| <= i < |h| :: Calls(h[i]) == []
  }

  /** Exactly the calls before the `k`th got a result, one each and in order. */
  ghost predicate StoppedAt(before: seq<ChatMessage>, h: seq<ChatMessage>, calls: seq<ToolCall>, k: nat) {
    && k < |calls| && AnswersInOrder(before, h, calls[..k]) && AnsweredBut(h, calls[k..])
    && NoNewCalls(before, h)
  }

  /** Each call from the `k`th on shares its id with one before. */
  ghost predicate OnlyRepeats(calls: seq<ToolCall>, k: nat)
    requires k <= |calls|
  {
    forall tc | tc in calls[k..] :: tc.id in IdsOf(calls[..k])
  }

  /** A message whose calls were stopped at the `k`th: whether that left a call open. */
  lemma StoppedAnsweredIff(h0: seq<ChatMessage>, asst: ChatMessage, h: seq<ChatMessage>, k: nat)
    requires Answered(h0) && StoppedAt(h0 + [asst], h, Calls(asst), k)
    ensures Answered(h) <==> OnlyRepeats(Calls(asst), k)
  {
    var before, calls, n := h0 + [asst], Calls(asst), |h0|;
    assert h[n] == asst && calls == calls[..k] + calls[k..];
    if Answered(h) {
      forall tc | tc in calls[k..] ensures tc.id in IdsOf(calls[..k]) {
        assert tc in Calls(h[n]) && ResultAfter(h, n, tc.id);
        var j :| n < j < |h| && IsResult(h[j], tc.id);
        assert h[|before|..][j - |before|] == h[j];
        ToolIdsMember(h[|before|..], j - |before|);
      }
    }
    if OnlyRepeats(calls, k) {
      forall i, tc | 0 <= i < |h| && tc in Calls(h[i]) ensures ResultAfter(h, i, tc.id) {
        if tc in calls[k..] {
          var j := ToolIdIndex(h[|before|..], tc.id);
          assert h[|before|..][j] == h[|before| + j];
        }
      }
    }
  }

  /** A run stopped within the calls of `asst`; the history it leaves is sound exactly when only repeats were open. */
  ghost predicate StoppedRun(h0: seq<ChatMessage>, asst: ChatMessage, h: seq<ChatMessage>) {
    exists k: nat :: StoppedAt(h0 + [asst], h, Calls(asst), k) && (Sound(h) <==> OnlyRepeats(Calls(asst), k))
  }

  lemma {:induction false} IdsOfAppend(calls: seq<ToolCall>, tc: ToolCall)
    ensures IdsOf(calls + [tc]) == IdsOf(calls) + [tc.id]
  {
    if calls == [] {
      assert [tc][1..] == [];
    } else {
      IdsOfAppend(calls[1..], tc);
      assert (calls + [tc])[1..] == calls[1..] + [tc];
    }
  }

  lemma AnswerAppended(before: seq<ChatMessage>, h: seq<ChatMessage>, calls: seq<ToolCall>, m: ChatMessage)
    requires AnswersInOrder(before, h, calls)
    ensures !m.role.Tool? ==> AnswersInOrder(before, h + [m], calls)
    ensures forall tc: ToolCall | IsResult(m, tc.id) :: AnswersInOrder(before, h + [m], calls + [tc])
  {
    var added := h[|before|..];
    assert (h + [m])[|before|..] == added + [m];
    FlatMapAppend(IfToolId, added, [m]);
    FlatMapOne(IfToolId, m);
    forall tc: ToolCall | IsResult(m, tc.id) ensures AnswersInOrder(before, h + [m], calls + [tc]) {
      IdsOfAppend(calls, tc);
    }
  }

  lemma PairOneMore(before: seq<ChatMessage>, h: seq<ChatMessage>, calls: seq<ToolCall>, k: nat,
                    warning: seq<ChatMessage>, content: string)
    requires k < |calls| && AnsweredBut(h, calls[k..]) && ToolsCarryNoCalls(h)
    requires AnswersInOrder(before, h, calls[..k])
    requires warning == [] || exists text :: warning == [ChatMessage(User, text, Some("system"), None, None)]
    ensures
      var h' := h + warning + [ResultMessage(calls[k], content)];
      && AnsweredBut(h', calls[k + 1..]) && ToolsCarryNoCalls(h') && AnswersInOrder(before, h', calls[..k + 1])
  {
    assert calls[k..] == [calls[k]] + calls[k + 1..];
    assert calls[..k + 1] == calls[..k] + [calls[k]];
    var warned := h + warning;
    if warning == [] {
      assert warned == h;
    } else {
      AppendKeepsPairing(h, warning[0], calls[k..], calls[k..]);
      AnswerAppended(before, h, calls[..k], warning[0]);
      assert warning == [warning[0]];
    }
    AppendKeepsPairing(warned, ResultMessage(calls[k], content), calls[k..], calls[k + 1..]);
    AnswerAppended(before, warned, calls[..k], ResultMessage(calls[k], content));
  }

  /** A compaction: the history it found and where it split it. */
  datatype Compacted = Compacted(history: seq<ChatMessage>, split: nat)

  /**
    What holds of every compaction of the loop: a sound history over the threshold was split by the budget, and the
    request for the summary had its calls answered exactly when the split parts no call from its result.
  */
  ghost predicate LawfulCompaction(settings: Settings, world: World, c: Compacted) {
    && Sound(c.history) && settings.compaction.Some? && 1 <= c.split <= |c.history|
    && NeedsCompaction(world.usedTokens(c.history), settings.modelMaxTokens, settings.compaction.value)
    && IsSplit(world.tokens, c.history, settings.compaction.value.keepRecentTokens, c.split)
    && (Answered(SummaryRequest(c.history, c.split)) <==> !PartsPair(c.history, c.split))
  }

  /** Nobody has a result for any of the calls, and no two of them share an id. */
  ghost predicate NewCalls(before: seq<ChatMessage>, calls: seq<ToolCall>) {
    Distinct(IdsOf(calls)) && forall id | id in IdsOf(calls) :: NoResult(before, id)
  }

  /** Answering calls keeps results unique if and only if their ids are distinct and none has a result yet. */
  lemma ResultsStayUniqueIff(before: seq<ChatMessage>, h: seq<ChatMessage>, calls: seq<ToolCall>)
    requires AnswersInOrder(before, h, calls)
    ensures ResultsUnique(h) <==> ResultsUnique(before) && NewCalls(before, calls)
  {
    assert h == before + h[|before|..];
    UniqueThenIff(before, h[|before|..]);
  }

  lemma StoppedOnlyCall(h0: seq<ChatMessage>, asst: ChatMessage, h: seq<ChatMessage>)
    requires StoppedRun(h0, asst, h) && |Calls(asst)| == 1
    ensures !Sound(h)
  {
    var calls := Calls(asst);
    var k: nat :| StoppedAt(h0 + [asst], h, calls, k) && (Sound(h) <==> OnlyRepeats(calls, k));
    assert k == 0;
    assert calls[0..] == calls && calls[..0] == [];
    assert calls[0] in calls;
  }
}
