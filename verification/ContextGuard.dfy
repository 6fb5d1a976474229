/** The context-window guard: truncation of tool results to fit a token budget. */
module ContextGuard {
  import opened Prelude
  import opened Text
  import opened Chat

  const HARD_MIN_TOKENS := 16_000
  const BUDGET_WARNING_TOKENS := 32_000
  const MIN_TOOL_CHARS := 200
  const MAX_HALVINGS := 5
  const HALVED_NOTE := "\n\n[Truncated" + " by context" + " guard " + "—" + " halved" + " for budget]"

  datatype GuardConfig = GuardConfig(contextWindow: nat, inputBudgetRatio: real, toolResultBudgetRatio: real)

  datatype GuardAction = Fits | NearBudget(used: nat, budget: nat) | TruncateNeeded(used: nat, budget: nat)

  /** Conversion of a float to an unsigned integer: towards zero, negative values give zero. */
  function ToUnsigned(x: real): nat {
    if x <= 0.0 then 0 else x.Floor
  }

  function InputBudget(config: GuardConfig): (b: nat)
    ensures b >= HARD_MIN_TOKENS
  {
    Max(ToUnsigned(config.contextWindow as real * config.inputBudgetRatio), HARD_MIN_TOKENS)
  }

  function ToolResultLimit(config: GuardConfig): nat {
    ToUnsigned(InputBudget(config) as real * config.toolResultBudgetRatio)
  }

  function CheckBudget(config: GuardConfig, used: nat): GuardAction {
    var budget := InputBudget(config);
    if used > budget then TruncateNeeded(used, budget)
    else if used > BUDGET_WARNING_TOKENS && used > budget * 3 / 4 then NearBudget(used, budget)
    else Fits
  }

  function LimitNote(tokens: nat, limit: nat): string {
    "\n\n[Truncated by context guard — original ~" + Decimal(tokens) + " tokens, limit " + Decimal(limit) + "]"
  }

  /** First pass on one message: an oversized tool result is cut to the per-result limit. */
  function CutToLimit(m: ChatMessage, limit: nat, est: string -> nat): ChatMessage {
    var tokens := est(m.content);
    if m.role.Tool? && tokens > limit && ByteLen(m.content) > limit * 4 then
      m.(content := CutAtNewline(KeepBytes(m.content, limit * 4)) + LimitNote(tokens, limit))
    else m
  }

  function Halved(content: string): string {
    CutAtNewline(KeepBytes(content, ByteLen(content) / 2)) + HALVED_NOTE
  }

  /** The last of the largest tool results. */
  ghost predicate IsLargestTool(msgs: seq<ChatMessage>, k: nat) {
    && k < |msgs| && msgs[k].role.Tool?
    && (forall i | 0 <= i < |msgs| && msgs[i].role.Tool? :: ByteLen(msgs[i].content) <= ByteLen(msgs[k].content))
    && (forall i | k < i < |msgs| && msgs[i].role.Tool? :: ByteLen(msgs[i].content) < ByteLen(msgs[k].content))
  }

  function LargestTool(msgs: seq<ChatMessage>): (r: Option<nat>)
    ensures r.Some? ==> IsLargestTool(msgs, r.value)
    ensures r.None? ==> forall i | 0 <= i < |msgs| :: !msgs[i].role.Tool?
  {
    if msgs == [] then None
    else
      var last := |msgs| - 1;
      var r := LargestTool(msgs[..last]);
      if msgs[last].role.Tool? && (r.None? || ByteLen(msgs[r.value].content) <= ByteLen(msgs[last].content))
      then Some(last) else r
  }

  method FindLargestTool(messages: seq<ChatMessage>) returns (r: Option<nat>)
    ensures r == LargestTool(messages)
  {
    r := None;
    for k := 0 to |messages|
      invariant r == LargestTool(messages[..k])
    {
      assert messages[..k + 1][..k] == messages[..k];
      if messages[k].role.Tool? &&
         (r.None? || ByteLen(messages[r.value].content) <= ByteLen(messages[k].content)) {
        r := Some(k);
      }
    }
    assert messages[..|messages|] == messages;
  }

  /** One halving, unless no tool result is large. */
  function HalveLargest(msgs: seq<ChatMessage>): Option<seq<ChatMessage>> {
    var largest := LargestTool(msgs);
    if largest.None? || ByteLen(msgs[largest.value].content) <= MIN_TOOL_CHARS then None
    else
      var k := largest.value;
      Some(msgs[k := msgs[k].(content := Halved(msgs[k].content))])
  }

  /** Second pass: the largest tool result is halved until the budget is met or nothing large is left. */
  function Halving(msgs: seq<ChatMessage>, budget: nat, used: seq<ChatMessage> -> nat, rounds: nat): seq<ChatMessage>
    decreases rounds
  {
    if rounds == 0 || used(msgs) <= budget then msgs
    else
      match HalveLargest(msgs)
      case None => msgs
      case Some(next) => Halving(next, budget, used, rounds - 1)
  }

  function CutAll(msgs: seq<ChatMessage>, limit: nat, est: string -> nat): seq<ChatMessage> {
    seq(|msgs|, i requires 0 <= i < |msgs| => CutToLimit(msgs[i], limit, est))
  }

  function Guarded(msgs: seq<ChatMessage>, config: GuardConfig, est: string -> nat, used: seq<ChatMessage> -> nat): seq<ChatMessage> {
    Halving(CutAll(msgs, ToolResultLimit(config), est), InputBudget(config), used, MAX_HALVINGS)
  }

  method CutOversized(messages: seq<ChatMessage>, limit: nat, est: string -> nat) returns (result: seq<ChatMessage>)
    ensures result == CutAll(messages, limit, est)
  {
    result := messages;
    for k := 0 to |messages|
      invariant |result| == |messages|
      invariant forall i | 0 <= i < k :: result[i] == CutToLimit(messages[i], limit, est)
      invariant forall i | k <= i < |messages| :: result[i] == messages[i]
    {
      result := result[k := CutToLimit(result[k], limit, est)];
    }
  }

  method TruncateToolResults(messages: seq<ChatMessage>, config: GuardConfig,
                             est: string -> nat, used: seq<ChatMessage> -> nat)
    returns (result: seq<ChatMessage>)
    ensures result == Guarded(messages, config, est, used)
  {
    var budget := InputBudget(config);
    result := CutOversized(messages, ToolResultLimit(config), est);
    var iterations := 0;
    while iterations < MAX_HALVINGS
      invariant iterations <= MAX_HALVINGS
      invariant Halving(result, budget, used, MAX_HALVINGS - iterations) == Guarded(messages, config, est, used)
    {
      if used(result) <= budget { break; }
      iterations := iterations + 1;
      var largest := FindLargestTool(result);
      if largest.None? { break; }
      var k := largest.value;
      if ByteLen(result[k].content) <= MIN_TOOL_CHARS { break; }
      result := result[k := result[k].(content := Halved(result[k].content))];
    }
  }

  lemma HalvedHasShape(msgs: seq<ChatMessage>)
    ensures HalveLargest(msgs).Some? ==> SameShape(msgs, HalveLargest(msgs).value)
  {
    if HalveLargest(msgs).Some? {
      var k := LargestTool(msgs).value;
      ShapeOfEdit(msgs, k, Halved(msgs[k].content));
    }
  }

  lemma {:induction false} HalvingShape(msgs: seq<ChatMessage>, budget: nat, used: seq<ChatMessage> -> nat, rounds: nat)
    ensures SameShape(msgs, Halving(msgs, budget, used, rounds))
    decreases rounds
  {
    assert SameShape(msgs, msgs);
    if rounds > 0 && used(msgs) > budget && HalveLargest(msgs).Some? {
      var next := HalveLargest(msgs).value;
      HalvedHasShape(msgs);
      HalvingShape(next, budget, used, rounds - 1);
      ShapeTransitive(msgs, next, Halving(next, budget, used, rounds - 1));
    }
  }

  /**
    The first pass changes exactly the oversized tool results: each keeps the longest front part within the
    limit, cut back to its last newline, and names its original size.
  */
  lemma FirstPassMeaning(msgs: seq<ChatMessage>, limit: nat, est: string -> nat, k: nat)
    requires k < |msgs|
    ensures
      var before, now := msgs[k], CutAll(msgs, limit, est)[k];
      if before.role.Tool? && est(before.content) > limit && ByteLen(before.content) > limit * 4
      then exists kept :: FrontPart(before.content, limit * 4, kept)
             && now == before.(content := kept + LimitNote(est(before.content), limit))
      else now == before
  {
    CutIsFrontPart(msgs[k].content, limit * 4);
  }

  lemma HalvedNoteLength()
    ensures ByteLen(HALVED_NOTE) == 52
  {
    var a, b, c, d, e := "\n\n[Truncated", " by context", " guard ", " halved", " for budget]";
    AsciiByteLen(a);
    AsciiByteLen(b);
    AsciiByteLen(c);
    AsciiByteLen(d);
    AsciiByteLen(e);
    assert ByteLen("—") == 3 by { assert "—"[..0] == ""; }
    ByteLenAppend(a, b);
    ByteLenAppend(a + b, c);
    ByteLenAppend(a + b + c, "—");
    ByteLenAppend(a + b + c + "—", d);
    ByteLenAppend(a + b + c + "—" + d, e);
  }

  /**
    One halving keeps of the last of the largest tool results the longest front part within half its bytes,
    cut back to its last newline. It always shortens the result, and nothing else changes.
  */
  lemma HalvingMeaning(msgs: seq<ChatMessage>, k: nat)
    requires IsLargestTool(msgs, k) && ByteLen(msgs[k].content) > MIN_TOOL_CHARS
    ensures
      var before := msgs[k].content;
      exists kept :: FrontPart(before, ByteLen(before) / 2, kept)
        && ByteLen(kept + HALVED_NOTE) < ByteLen(before)
        && HalveLargest(msgs) == Some(msgs[k := msgs[k].(content := kept + HALVED_NOTE)])
  {
    assert LargestTool(msgs) == Some(k);
    var before := msgs[k].content;
    var kept := CutAtNewline(KeepBytes(before, ByteLen(before) / 2));
    CutIsFrontPart(before, ByteLen(before) / 2);
    FrontPartIsShort(before, ByteLen(before) / 2, kept);
    ByteLenAppend(kept, HALVED_NOTE);
    HalvedNoteLength();
  }

  /** From `a` to `b` the last of the largest tool results was halved, and it was larger than 200 bytes. */
  ghost predicate HalvedAt(a: seq<ChatMessage>, b: seq<ChatMessage>, k: nat, kept: string) {
    && IsLargestTool(a, k) && ByteLen(a[k].content) > 200
    && FrontPart(a[k].content, ByteLen(a[k].content) / 2, kept)
    && b == a[k := a[k].(content := kept + HALVED_NOTE)]
  }

  ghost predicate HalvedOnce(a: seq<ChatMessage>, b: seq<ChatMessage>) {
    exists k: nat, kept :: HalvedAt(a, b, k, kept)
  }

  /** A round halves the last of the largest tool results if that one is larger than 200 bytes, and else ends the pass. */
  lemma HalveLargestIs(msgs: seq<ChatMessage>)
    ensures match HalveLargest(msgs)
      case Some(next) => HalvedOnce(msgs, next)
      case None => forall m | m in msgs && m.role.Tool? :: ByteLen(m.content) <= 200
  {
    if HalveLargest(msgs).Some? {
      var k := LargestTool(msgs).value;
      HalvingMeaning(msgs, k);
      var before := msgs[k].content;
      var kept :| FrontPart(before, ByteLen(before) / 2, kept)
        && HalveLargest(msgs) == Some(msgs[k := msgs[k].(content := kept + HALVED_NOTE)]);
      assert HalvedAt(msgs, HalveLargest(msgs).value, k, kept);
    }
  }

  /** Rounds one after another, each of them over the budget. */
  ghost predicate HalvingsTo(a: seq<ChatMessage>, b: seq<ChatMessage>, budget: nat, used: seq<ChatMessage> -> nat, n: nat)
    decreases n
  {
    if n == 0 then a == b
    else
      && used(a) > budget && HalveLargest(a).Some?
      && HalvingsTo(HalveLargest(a).value, b, budget, used, n - 1)
  }

  lemma {:induction false} HalvingEnds(msgs: seq<ChatMessage>, budget: nat, used: seq<ChatMessage> -> nat, rounds: nat)
    returns (n: nat)
    ensures
      var out := Halving(msgs, budget, used, rounds);
      && n <= rounds && HalvingsTo(msgs, out, budget, used, n)
      && (used(out) <= budget || n == rounds || HalveLargest(out).None?)
    decreases rounds
  {
    n := 0;
    if rounds > 0 && used(msgs) > budget && HalveLargest(msgs).Some? {
      n := HalvingEnds(HalveLargest(msgs).value, budget, used, rounds - 1);
      n := n + 1;
    }
  }

  /**
    The guard cuts the oversized results and then halves the largest one while the budget is exceeded, at most five
    times; it stays over the budget only after five halvings or when no tool result has more than 200 bytes.
  */
  lemma GuardMeaning(msgs: seq<ChatMessage>, config: GuardConfig, est: string -> nat, used: seq<ChatMessage> -> nat)
    returns (n: nat)
    ensures
      var cut, out := CutAll(msgs, ToolResultLimit(config), est), Guarded(msgs, config, est, used);
      && n <= 5 && HalvingsTo(cut, out, InputBudget(config), used, n)
      && (|| used(out) <= InputBudget(config) || n == 5
          || forall m | m in out && m.role.Tool? :: ByteLen(m.content) <= 200)
  {
    HalveLargestIs(Guarded(msgs, config, est, used));
    n := HalvingEnds(CutAll(msgs, ToolResultLimit(config), est), InputBudget(config), used, MAX_HALVINGS);
  }

  /** Only contents of tool results change. */
  lemma GuardEditsOnlyToolContents(msgs: seq<ChatMessage>, config: GuardConfig, est: string -> nat, used: seq<ChatMessage> -> nat)
    ensures SameShape(msgs, Guarded(msgs, config, est, used))
  {
    var cut := CutAll(msgs, ToolResultLimit(config), est);
    assert SameShape(msgs, cut);
    HalvingShape(cut, InputBudget(config), used, MAX_HALVINGS);
    ShapeTransitive(msgs, cut, Guarded(msgs, config, est, used));
  }

  ghost predicate IsWholePart(x: real, n: nat) {
    if x <= 0.0 then n == 0 else n as real <= x < n as real + 1.0
  }

  /**
    The budget is a share of the window, in whole tokens and never below 16 000; the guard acts when more is used, and
    warns when more than 32 000 and more than three quarters of it are.
  */
  lemma BudgetMeaning(config: GuardConfig, used: nat)
    ensures
      var share, budget := config.contextWindow as real * config.inputBudgetRatio, InputBudget(config);
      && budget >= 16_000 && (budget > 16_000 ==> IsWholePart(share, budget))
      && (budget == 16_000 ==> share <= 16_000.0 || IsWholePart(share, 16_000))
      && IsWholePart(budget as real * config.toolResultBudgetRatio, ToolResultLimit(config))
    ensures
      var budget := InputBudget(config);
      CheckBudget(config, used) ==
        if used > budget then TruncateNeeded(used, budget)
        else if used > 32_000 && 4 * used > 3 * budget then NearBudget(used, budget)
        else Fits
  {
  }
}
