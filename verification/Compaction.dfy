/** Compaction: the old part of a history is replaced by a summary. */
module Compaction {
  import opened Prelude
  import opened Chat
  import opened TranscriptRepair

  datatype CompactionConfig = CompactionConfig(reserveTokens: nat, keepRecentTokens: nat)

  datatype CompactionResult = CompactionResult(summary: ChatMessage, keptMessages: seq<ChatMessage>)

  const COMPACTION_PROMPT :=
    "Summarize this conversation concisely, preserving key facts, decisions, code context, and any important details the assistant needs to continue helping."

  /** Token estimates of texts; the tokenizer itself is not part of this model. */
  type Estimate = string -> nat

  predicate NeedsCompaction(used: nat, maxTokens: Option<nat>, config: CompactionConfig) {
    maxTokens.Some? && used > SaturatingSub(maxTokens.value, config.reserveTokens)
  }

  function Total(est: Estimate, msgs: seq<ChatMessage>): nat {
    if msgs == [] then 0 else est(msgs[0].content) + 4 + Total(est, msgs[1..])
  }

  /**
    Where the recent part begins: the longest suffix within the budget, except that nothing at all
    is recent when the whole list is within the budget.
  */
  ghost predicate IsSplit(est: Estimate, msgs: seq<ChatMessage>, budget: nat, split: nat) {
    if Total(est, msgs) <= budget then split == |msgs|
    else
      && 1 <= split <= |msgs|
      && Total(est, msgs[split..]) <= budget
      && Total(est, msgs[split - 1..]) > budget
  }

  method FindSplit(messages: seq<ChatMessage>, est: Estimate, budget: nat) returns (split: nat)
    ensures IsSplit(est, messages, budget, split)
  {
    var recent := 0;
    var i := |messages|;
    while i > 0
      invariant 0 <= i <= |messages|
      invariant recent == Total(est, messages[i..]) <= budget
    {
      var t := est(messages[i - 1].content) + 4;
      if recent + t > budget {
        TotalSuffix(est, messages, i - 1);
        return i;
      }
      recent := recent + t;
      i := i - 1;
    }
    assert messages[0..] == messages;
    return |messages|;
  }

  lemma {:induction false} TotalSuffix(est: Estimate, msgs: seq<ChatMessage>, k: nat)
    requires k <= |msgs|
    ensures Total(est, msgs[k..]) <= Total(est, msgs)
  {
    if k == 0 {
      assert msgs[0..] == msgs;
    } else {
      TotalSuffix(est, msgs[1..], k - 1);
      assert msgs[1..][k - 1..] == msgs[k..];
    }
  }

  function FirstSystem(msgs: seq<ChatMessage>): (r: Option<ChatMessage>)
    ensures r.Some? ==> r.value in msgs && r.value.role.System?
    ensures r.None? ==> forall m | m in msgs :: !m.role.System?
  {
    if msgs == [] then None
    else if msgs[0].role.System? then Some(msgs[0])
    else
      assert msgs == [msgs[0]] + msgs[1..];
      FirstSystem(msgs[1..])
  }

  function SummaryMessage(text: string): ChatMessage {
    Plain(System, "[Conversation summary]\n" + text)
  }

  /** What goes in front of the kept messages. */
  function Header(msgs: seq<ChatMessage>, text: string): seq<ChatMessage> {
    match FirstSystem(msgs)
    case Some(sys) => [sys, SummaryMessage(text)]
    case None => [SummaryMessage(text)]
  }

  function SummaryRequest(msgs: seq<ChatMessage>, split: nat): seq<ChatMessage>
    requires split <= |msgs|
  {
    msgs[..split] + [Plain(User, COMPACTION_PROMPT)]
  }

  /**
    `summarize` answers the summary request, or fails. The slice up to the split needs at least one
    message.
  */
  method CompactHistory(messages: seq<ChatMessage>, config: CompactionConfig, est: Estimate,
                        summarize: seq<ChatMessage> -> Option<string>)
    returns (r: Option<CompactionResult>, split: nat)
    requires messages != []
    ensures IsSplit(est, messages, config.keepRecentTokens, split) && split >= 1
    ensures r.Some? <==> summarize(SummaryRequest(messages, split)).Some?
    ensures r.Some? ==>
      [r.value.summary] + r.value.keptMessages ==
        Header(messages, summarize(SummaryRequest(messages, split)).value) + messages[split..]
  {
    split := FindSplit(messages, est, config.keepRecentTokens);
    var text := summarize(SummaryRequest(messages, split));
    if text.None? {
      return None, split;
    }
    var summary := SummaryMessage(text.value);
    match FirstSystem(messages)
    case Some(sys) =>
      r := Some(CompactionResult(sys, [summary] + messages[split..]));
    case None =>
      r := Some(CompactionResult(summary, messages[split..]));
  }

  ghost predicate FirstSystemAt(msgs: seq<ChatMessage>, i: nat) {
    i < |msgs| && msgs[i].role.System? && forall j | 0 <= j < i :: !msgs[j].role.System?
  }

  /** In front of what is kept stand the first system message, if there is one, and the marked summary. */
  lemma {:induction false} HeaderMeaning(msgs: seq<ChatMessage>, text: string)
    ensures var summary := ChatMessage(System, "[Conversation summary]\n" + text, None, None, None);
      if exists i: nat :: FirstSystemAt(msgs, i)
      then exists i: nat :: FirstSystemAt(msgs, i) && Header(msgs, text) == [msgs[i], summary]
      else (forall m | m in msgs :: !m.role.System?) && Header(msgs, text) == [summary]
  {
    if msgs != [] && msgs[0].role.System? {
      assert FirstSystemAt(msgs, 0);
    } else if msgs != [] {
      HeaderMeaning(msgs[1..], text);
      assert msgs == [msgs[0]] + msgs[1..];
      forall i: nat ensures FirstSystemAt(msgs, i + 1) <==> FirstSystemAt(msgs[1..], i) {
        assert i < |msgs| - 1 ==> msgs[1..][i] == msgs[i + 1];
        if FirstSystemAt(msgs, i + 1) {
          forall j | 0 <= j < i ensures !msgs[1..][j].role.System? { assert msgs[1..][j] == msgs[j + 1]; }
        }
        if FirstSystemAt(msgs[1..], i) {
          forall j | 0 < j < i + 1 ensures !msgs[j].role.System? { assert msgs[1..][j - 1] == msgs[j]; }
        }
      }
      if exists i: nat :: FirstSystemAt(msgs, i) {
        var i: nat :| FirstSystemAt(msgs, i);
        var at: nat := i - 1;
        assert FirstSystemAt(msgs[1..], at);
        var j: nat :| FirstSystemAt(msgs[1..], j) && FirstSystem(msgs[1..]) == Some(msgs[1..][j]);
        assert FirstSystemAt(msgs, j + 1) && msgs[j + 1] == msgs[1..][j];
      }
    }
  }

  /** Compaction is due when what is used and what is reserved go over the model's limit together. */
  lemma CompactionDueIff(used: nat, maxTokens: Option<nat>, config: CompactionConfig)
    ensures NeedsCompaction(used, maxTokens, config)
       <==> maxTokens.Some? && used > 0 && used + config.reserveTokens > maxTokens.value
  {
  }

  /** A compacted history keeps every remaining call answered. */
  lemma CompactionKeepsPairing(msgs: seq<ChatMessage>, split: nat, text: string)
    requires Answered(msgs) && split <= |msgs|
    ensures Answered(Header(msgs, text) + msgs[split..])
    ensures ToolsCarryNoCalls(msgs) ==> ToolsCarryNoCalls(Header(msgs, text) + msgs[split..])
  {
    AnsweredSuffix(msgs, split);
    AnsweredPrependAll(Header(msgs, text), msgs[split..]);
  }

  /** All of the conversation is summarized away exactly when it fits the budget or its last message does not. */
  lemma NothingKeptIff(est: Estimate, msgs: seq<ChatMessage>, budget: nat, split: nat)
    requires msgs != [] && IsSplit(est, msgs, budget, split)
    ensures msgs[split..] == [] <==> Total(est, msgs) <= budget || est(msgs[|msgs| - 1].content) + 4 > budget
  {
    var last := |msgs| - 1;
    assert Total(est, msgs[|msgs|..]) == 0;
    if Total(est, msgs) > budget && split <= last {
      TotalSuffix(est, msgs[split..], last - split);
      assert msgs[split..][last - split..] == msgs[last..];
    }
  }

  // ---- The summary request ----

  ghost predicate NoResult(h: seq<ChatMessage>, id: string) {
    forall k | 0 <= k < |h| :: !IsResult(h[k], id)
  }

  /** No result for `id` strictly between the two places. */
  ghost predicate NoneWithin(h: seq<ChatMessage>, i: nat, split: nat, id: string)
    requires split <= |h|
  {
    forall k | i < k < split :: !IsResult(h[k], id)
  }

  /** A call before the split has its first result behind it. */
  ghost predicate PartsPair(h: seq<ChatMessage>, split: nat)
    requires split <= |h|
  {
    exists i: nat, id: string :: i < split && CallsId(h[i], id) && ResultAfter(h, i, id) && NoneWithin(h, i, split, id)
  }

  lemma AnsweredBeforeSplit(h: seq<ChatMessage>, split: nat, i: nat, id: string)
    requires i < split <= |h|
    ensures ResultAfter(SummaryRequest(h, split), i, id) <==> !NoneWithin(h, i, split, id)
  {
    var req := SummaryRequest(h, split);
    assert forall k | 0 <= k < split :: req[k] == h[k];
    if !NoneWithin(h, i, split, id) {
      var k :| i < k < split && IsResult(h[k], id);
      assert IsResult(req[k], id);
    }
  }

  /** The request is a bare prefix and a prompt: its calls are answered if and only if the split parts no pair. */
  lemma SummaryRequestAnsweredIff(h: seq<ChatMessage>, split: nat)
    requires Answered(h) && split <= |h|
    ensures Answered(SummaryRequest(h, split)) <==> !PartsPair(h, split)
  {
    var req := SummaryRequest(h, split);
    if PartsPair(h, split) {
      var i: nat, id: string :| i < split && CallsId(h[i], id) && ResultAfter(h, i, id) && NoneWithin(h, i, split, id);
      AnsweredBeforeSplit(h, split, i, id);
      var tc :| tc in Calls(req[i]) && tc.id == id;
    } else {
      forall i, tc | 0 <= i < |req| && tc in Calls(req[i]) ensures ResultAfter(req, i, tc.id) {
        assert i < split && req[i] == h[i];
        assert CallsId(h[i], tc.id) && ResultAfter(h, i, tc.id);
        AnsweredBeforeSplit(h, split, i, tc.id);
      }
    }
  }

  // ---- Histories in which no id has two results ----

  ghost predicate ResultsUnique(h: seq<ChatMessage>) {
    forall i, j, id: string | 0 <= i < j < |h| && IsResult(h[i], id) :: !IsResult(h[j], id)
  }

  /** There a result behind the split for a call before it is all it takes. */
  lemma UniquePartsIff(h: seq<ChatMessage>, split: nat)
    requires ResultsUnique(h) && split <= |h|
    ensures PartsPair(h, split)
       <==> exists i, j, id: string :: 0 <= i < split <= j < |h| && CallsId(h[i], id) && IsResult(h[j], id)
  {
    forall i: nat, j: nat, id: string | i < split <= j < |h| && CallsId(h[i], id) && IsResult(h[j], id)
      ensures ResultAfter(h, i, id) && NoneWithin(h, i, split, id)
    {
    }
  }

  lemma UniqueAppendIff(h: seq<ChatMessage>, m: ChatMessage)
    ensures ResultsUnique(h + [m]) <==> ResultsUnique(h) && forall id: string | IsResult(m, id) :: NoResult(h, id)
  {
    var h' := h + [m];
    assert forall k | 0 <= k < |h| :: h'[k] == h[k];
    assert h'[|h|] == m;
    if ResultsUnique(h') {
      forall i, j, id: string | 0 <= i < j < |h| && IsResult(h[i], id) ensures !IsResult(h[j], id) {
        assert IsResult(h'[i], id) && !IsResult(h'[j], id);
      }
      forall id: string, k | IsResult(m, id) && 0 <= k < |h| ensures !IsResult(h[k], id) {
        assert !IsResult(h'[k], id);
      }
    }
  }

  lemma NoResultIff(h: seq<ChatMessage>, added: seq<ChatMessage>, id: string)
    ensures NoResult(h + added, id) <==> NoResult(h, id) && id !in ToolIds(added)
  {
    var all := h + added;
    assert forall k | 0 <= k < |h| :: all[k] == h[k];
    assert forall k | 0 <= k < |added| :: all[|h| + k] == added[k];
    if id in ToolIds(added) {
      var k := ToolIdIndex(added, id);
      assert IsResult(all[|h| + k], id);
    }
    if NoResult(h, id) && id !in ToolIds(added) {
      forall k | 0 <= k < |added| ensures !IsResult(added[k], id) {
        if IsResult(added[k], id) {
          ToolIdsMember(added, k);
        }
      }
    }
  }

  lemma DistinctThen(ids: seq<string>, id: string)
    ensures Distinct(ids + [id]) <==> Distinct(ids) && id !in ids
  {
    var more := ids + [id];
    assert forall k | 0 <= k < |ids| :: more[k] == ids[k];
    assert more[|ids|] == id;
    if Distinct(more) {
      forall i, j | 0 <= i < j < |ids| ensures ids[i] != ids[j] {
        assert more[i] != more[j];
      }
    }
  }

  /** Adding messages keeps results unique if and only if they answer distinct ids that had no result. */
  lemma {:induction false} UniqueThenIff(h: seq<ChatMessage>, added: seq<ChatMessage>)
    ensures ResultsUnique(h + added)
       <==> ResultsUnique(h) && Distinct(ToolIds(added)) && forall id | id in ToolIds(added) :: NoResult(h, id)
    decreases |added|
  {
    if added == [] {
      assert h + added == h;
    } else {
      var init, m := added[..|added| - 1], added[|added| - 1];
      assert added == init + [m] && h + added == h + init + [m];
      UniqueThenIff(h, init);
      UniqueAppendIff(h + init, m);
      FlatMapAppend(IfToolId, init, [m]);
      FlatMapOne(IfToolId, m);
      if m.role.Tool? && m.toolCallId.Some? {
        var id := m.toolCallId.value;
        assert ToolIds(added) == ToolIds(init) + [id];
        DistinctThen(ToolIds(init), id);
        NoResultIff(h, init, id);
      } else {
        assert ToolIds(added) == ToolIds(init);
      }
    }
  }

  lemma SuffixKeepsUnique(front: seq<ChatMessage>, h: seq<ChatMessage>, k: nat)
    requires ResultsUnique(h) && k <= |h| && forall i | 0 <= i < |front| :: !front[i].role.Tool?
    ensures ResultsUnique(front + h[k..])
  {
    var out := front + h[k..];
    forall i, j, id: string | 0 <= i < j < |out| && IsResult(out[i], id) ensures !IsResult(out[j], id) {
      assert IsResult(h[i - |front| + k], id) && out[j] == h[j - |front| + k];
    }
  }

  lemma ShapeKeepsUnique(h: seq<ChatMessage>, h': seq<ChatMessage>)
    requires SameShape(h, h') && ResultsUnique(h)
    ensures ResultsUnique(h')
  {
    forall i, j, id: string | 0 <= i < j < |h'| && IsResult(h'[i], id) ensures !IsResult(h'[j], id) {
      assert SameMessageShape(h[i], h'[i]) && SameMessageShape(h[j], h'[j]);
      assert IsResult(h[i], id);
    }
  }

  lemma RepairedHasUniqueResults(msgs: seq<ChatMessage>)
    ensures ResultsUnique(Repaired(msgs))
  {
    var h := Repaired(msgs);
    RepairedResultsUnique(msgs);
    forall i, j, id: string | 0 <= i < j < |h| && IsResult(h[i], id) ensures !IsResult(h[j], id) {
      assert ResultsFor(h, id) == [h[i]];
      ManyResultsIff(h, id);
    }
  }

  lemma SplitInRepairedBlock(msgs: seq<ChatMessage>, split: nat)
    requires CallsDisjoint(msgs) && split <= |Repaired(msgs)|
    ensures PartsPair(Repaired(msgs), split) <==> split < |Repaired(msgs)| && Repaired(msgs)[split].role.Tool?
  {
    var h := Repaired(msgs);
    RepairKeepsReuse(msgs);
    RepairedHasUniqueResults(msgs);
    UniquePartsIff(h, split);
    if split < |h| && h[split].role.Tool? {
      var p, first := RepairPlacesResults(msgs, split);
      var id := h[split].toolCallId.value;
      assert CallsId(h[p], id) && IsResult(h[split], id);
    }
    if PartsPair(h, split) {
      var i, j, id: string :| 0 <= i < split <= j < |h| && CallsId(h[i], id) && IsResult(h[j], id);
      var p, first := RepairPlacesResults(msgs, j);
      assert CallsId(h[p], id) && p == i;
    }
  }

  /**
    For a history as it is loaded, with no id called twice, the request is sound if and only if the message
    behind the split is no tool result.
  */
  lemma LoadedSummaryRequestIff(msgs: seq<ChatMessage>, split: nat)
    requires CallsDisjoint(msgs) && split <= |Repaired(msgs)|
    ensures
      var h := Repaired(msgs);
      Answered(SummaryRequest(h, split)) <==> split == |h| || !h[split].role.Tool?
  {
    RepairAnswersIff(msgs);
    SummaryRequestAnsweredIff(Repaired(msgs), split);
    SplitInRepairedBlock(msgs, split);
  }

  lemma {:induction false} TotalOfUnits(est: Estimate, msgs: seq<ChatMessage>)
    requires forall s :: est(s) == 1
    ensures Total(est, msgs) == 5 * |msgs|
  {
    if msgs != [] {
      TotalOfUnits(est, msgs[1..]);
    }
  }

  /** A user's message, a call, and its result. */
  function OnePair(tc: ToolCall): seq<ChatMessage> {
    [Plain(User, ""), ChatMessage(Assistant, "", None, Some([tc]), None), ChatMessage(Tool, "", None, None, Some(tc.id))]
  }

  lemma OnePairIsParted(tc: ToolCall)
    ensures Answered(OnePair(tc)) && PartsPair(OnePair(tc), 2)
  {
    var h := OnePair(tc);
    assert IsResult(h[2], tc.id) && ResultAfter(h, 1, tc.id);
    assert tc in Calls(h[1]) && CallsId(h[1], tc.id);
    assert NoneWithin(h, 1, 2, tc.id);
  }

  /** The split the budget picks can be such a place. */
  lemma BudgetCanPartPair(tc: ToolCall)
    ensures IsSplit((_: string) => 1, OnePair(tc), 5, 2) && PartsPair(OnePair(tc), 2)
  {
    var h, est := OnePair(tc), (_: string) => 1;
    TotalOfUnits(est, h);
    TotalOfUnits(est, h[1..]);
    TotalOfUnits(est, h[2..]);
    OnePairIsParted(tc);
  }
}
