/** Pruning of large tool results, except those of the most recent assistant messages. */
module Pruning {
  import opened Prelude
  import opened Text
  import opened Chat

  datatype PruningConfig = PruningConfig(
    softTrimMaxChars: nat,
    headChars: nat,
    tailChars: nat,
    hardClearMaxChars: nat,
    keepLastAssistants: nat)

  function AssistantCount(msgs: seq<ChatMessage>): nat {
    if msgs == [] then 0 else (if msgs[0].role.Assistant? then 1 else 0) + AssistantCount(msgs[1..])
  }

  /** Ids called by the assistant messages that are among the last `n` of their role. */
  ghost predicate Protected(msgs: seq<ChatMessage>, n: nat, id: string) {
    exists i :: 0 <= i < |msgs| && ProtectsAt(msgs, n, i, id)
  }

  ghost predicate ProtectsAt(msgs: seq<ChatMessage>, n: nat, i: nat, id: string)
    requires i < |msgs|
  {
    CallsId(msgs[i], id) && AssistantCount(msgs[i..]) <= n
  }

  function ClearedNote(size: nat): string {
    "[Tool result cleared — " + Decimal(size) + " chars]"
  }

  function TrimmedNote(size: nat): string {
    "...\n[trimmed — " + Decimal(size) + " chars total]\n..."
  }

  function Trimmed(content: string, config: PruningConfig): string {
    var len := ByteLen(content);
    if len > config.hardClearMaxChars then ClearedNote(len)
    else if len > config.softTrimMaxChars then
      var head := KeepBytes(content, Min(config.headChars, len));
      var tail := content[|KeepBytesWithin(content, SaturatingSub(len, config.tailChars))|..];
      head + TrimmedNote(len) + tail
    else content
  }

  /** `KeepBytes` with the fact that it is a prefix. */
  function KeepBytesWithin(s: string, bytes: nat): (r: string)
    ensures r <= s
  {
    KeepBytesIsLongest(s, bytes);
    KeepBytes(s, bytes)
  }

  /** One message of the pruning loop. */
  function Pruned(m: ChatMessage, ids: set<string>, config: PruningConfig): ChatMessage {
    if !m.role.Tool? then m
    else if m.toolCallId.Some? && m.toolCallId.value in ids then m
    else m.(content := Trimmed(m.content, config))
  }

  lemma AssistantCountStep(msgs: seq<ChatMessage>, i: nat)
    requires i < |msgs|
    ensures AssistantCount(msgs[i..]) == AssistantCount(msgs[i + 1..]) + if msgs[i].role.Assistant? then 1 else 0
  {
    assert msgs[i..][1..] == msgs[i + 1..];
  }

  /** The ids called by the last `n` assistant messages. */
  function ProtectedIds(msgs: seq<ChatMessage>, n: nat): set<string> {
    if msgs == [] || n == 0 then {}
    else
      var last := msgs[|msgs| - 1];
      if last.role.Assistant? then ProtectedIds(msgs[..|msgs| - 1], n - 1) + IdSet(Calls(last))
      else ProtectedIds(msgs[..|msgs| - 1], n)
  }

  method CollectProtectedIds(messages: seq<ChatMessage>, keepLast: nat) returns (ids: set<string>)
    ensures ids == ProtectedIds(messages, keepLast)
  {
    ids := {};
    var taken := 0;
    var i := |messages|;
    assert messages[..i] == messages;
    while i > 0 && taken < keepLast
      invariant 0 <= i <= |messages| && taken <= keepLast
      invariant ids + ProtectedIds(messages[..i], keepLast - taken) == ProtectedIds(messages, keepLast)
    {
      i := i - 1;
      assert messages[..i + 1][..i] == messages[..i];
      if messages[i].role.Assistant? {
        taken := taken + 1;
        if messages[i].toolCalls.Some? {
          ids := ids + IdSet(Calls(messages[i]));
        }
      }
    }
  }

  function PrunedAll(msgs: seq<ChatMessage>, config: PruningConfig): seq<ChatMessage> {
    var ids := ProtectedIds(msgs, config.keepLastAssistants);
    seq(|msgs|, i requires 0 <= i < |msgs| => Pruned(msgs[i], ids, config))
  }

  method PruneToolResults(messages: seq<ChatMessage>, config: PruningConfig) returns (result: seq<ChatMessage>)
    ensures result == PrunedAll(messages, config)
  {
    var ids := CollectProtectedIds(messages, config.keepLastAssistants);
    result := messages;
    for k := 0 to |messages|
      invariant |result| == |messages|
      invariant forall i | 0 <= i < k :: result[i] == Pruned(messages[i], ids, config)
      invariant forall i | k <= i < |messages| :: result[i] == messages[i]
    {
      result := result[k := Pruned(result[k], ids, config)];
    }
  }

  lemma {:induction false} ProtectedIdsSpec(msgs: seq<ChatMessage>, n: nat, id: string)
    ensures id in ProtectedIds(msgs, n) <==> Protected(msgs, n, id)
  {
    if msgs != [] {
      var last := |msgs| - 1;
      var init := msgs[..last];
      var m := if msgs[last].role.Assistant? then n - 1 else n;
      forall i | 0 <= i <= last
        ensures AssistantCount(msgs[i..]) == AssistantCount(init[i..]) + n - m
      {
        assert msgs[i..] == init[i..] + [msgs[last]];
        AssistantCountAppend(init[i..], msgs[last]);
      }
      if n > 0 {
        ProtectedIdsSpec(init, m, id);
        forall i | 0 <= i < last ensures ProtectsAt(init, m, i, id) <==> ProtectsAt(msgs, n, i, id) {
        }
        assert ProtectsAt(msgs, n, last, id) <==> CallsId(msgs[last], id);
        if Protected(init, m, id) {
          var i :| 0 <= i < |init| && ProtectsAt(init, m, i, id);
          assert ProtectsAt(msgs, n, i, id);
        }
        if Protected(msgs, n, id) {
          var i :| 0 <= i < |msgs| && ProtectsAt(msgs, n, i, id);
          assert i < last ==> ProtectsAt(init, m, i, id);
        }
      } else if Protected(msgs, n, id) {
        var i :| 0 <= i < |msgs| && ProtectsAt(msgs, n, i, id);
        AssistantCountStep(msgs, i);
      }
    }
  }

  lemma {:induction false} AssistantCountAppend(msgs: seq<ChatMessage>, m: ChatMessage)
    ensures AssistantCount(msgs + [m]) == AssistantCount(msgs) + if m.role.Assistant? then 1 else 0
  {
    if msgs == [] {
      assert [m][1..] == [];
    } else {
      AssistantCountAppend(msgs[1..], m);
      assert (msgs + [m])[1..] == msgs[1..] + [m];
    }
  }

  /** `now` is the front of `before`, a note, and its end, each as long as its limit in bytes allows. */
  ghost predicate FrontAndEnd(before: string, headBytes: nat, skippedBytes: nat, note: string, now: string) {
    exists head, skipped, tail ::
      && LongestWithin(before, headBytes, head)
      && before == skipped + tail && LongestWithin(before, skippedBytes, skipped)
      && now == head + note + tail
  }

  /** `now` is what pruning makes of a tool result that no recent assistant message asked for. */
  ghost predicate IsPruned(before: string, config: PruningConfig, now: string) {
    var size := ByteLen(before);
    if size > config.hardClearMaxChars then now == ClearedNote(size)
    else if size > config.softTrimMaxChars then
      FrontAndEnd(before, Min(config.headChars, size), SaturatingSub(size, config.tailChars), TrimmedNote(size), now)
    else now == before
  }

  /** What becomes of each message: which are touched, and what is kept of those at the front and at the end. */
  lemma PruningMeaning(msgs: seq<ChatMessage>, config: PruningConfig, k: nat)
    requires k < |msgs|
    ensures
      var before, now := msgs[k], PrunedAll(msgs, config)[k];
      if !before.role.Tool? ||
         (before.toolCallId.Some? && Protected(msgs, config.keepLastAssistants, before.toolCallId.value))
      then now == before
      else exists content :: now == before.(content := content) && IsPruned(before.content, config, content)
  {
    var m := msgs[k];
    if m.toolCallId.Some? {
      ProtectedIdsSpec(msgs, config.keepLastAssistants, m.toolCallId.value);
    }
    TrimmedIsPruned(m.content, config);
  }

  lemma FrontNoteEnd(content: string, headBytes: nat, skippedBytes: nat, note: string)
    ensures FrontAndEnd(content, headBytes, skippedBytes, note,
              KeepBytes(content, headBytes) + note + content[|KeepBytesWithin(content, skippedBytes)|..])
  {
    KeepBytesIsLongest(content, headBytes);
    KeepBytesIsLongest(content, skippedBytes);
    var skipped := KeepBytes(content, skippedBytes);
    assert content == skipped + content[|skipped|..];
  }

  lemma TrimmedIsPruned(content: string, config: PruningConfig)
    ensures IsPruned(content, config, Trimmed(content, config))
  {
    var size := ByteLen(content);
    FrontNoteEnd(content, Min(config.headChars, size), SaturatingSub(size, config.tailChars), TrimmedNote(size));
  }

  /** Only contents of tool results change. */
  lemma PruningEditsOnlyToolContents(msgs: seq<ChatMessage>, config: PruningConfig)
    ensures SameShape(msgs, PrunedAll(msgs, config))
  {
    forall k | 0 <= k < |msgs| ensures SameMessageShape(msgs[k], PrunedAll(msgs, config)[k]) {
    }
  }

  /** The results of the last assistant messages are never touched. */
  lemma RecentResultsVerbatim(msgs: seq<ChatMessage>, config: PruningConfig, i: nat, id: string, k: nat)
    requires i < |msgs| && CallsId(msgs[i], id) && AssistantCount(msgs[i..]) <= config.keepLastAssistants
    requires k < |msgs| && IsResult(msgs[k], id)
    ensures PrunedAll(msgs, config)[k] == msgs[k]
  {
    assert ProtectsAt(msgs, config.keepLastAssistants, i, id);
    ProtectedIdsSpec(msgs, config.keepLastAssistants, id);
  }

  /** A message changes only if it is a large tool result that no recent assistant message asked for. */
  lemma OnlyLargeOldResultsChange(msgs: seq<ChatMessage>, config: PruningConfig, k: nat)
    requires k < |msgs| && PrunedAll(msgs, config)[k] != msgs[k]
    ensures msgs[k].role.Tool?
    ensures ByteLen(msgs[k].content) > Min(config.softTrimMaxChars, config.hardClearMaxChars)
    ensures msgs[k].toolCallId.Some? ==> !Protected(msgs, config.keepLastAssistants, msgs[k].toolCallId.value)
  {
    if msgs[k].toolCallId.Some? {
      ProtectedIdsSpec(msgs, config.keepLastAssistants, msgs[k].toolCallId.value);
    }
  }
}
