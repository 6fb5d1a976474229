/** Chat messages and the pairing of tool calls with tool results. */
module Chat {
  import opened Prelude

  datatype Role = System | User | Assistant | Tool

  datatype ToolCall = ToolCall(id: string, kind: string, name: string, arguments: string)

  datatype ChatMessage = ChatMessage(
    role: Role,
    content: string,
    name: Option<string>,
    toolCalls: Option<seq<ToolCall>>,
    toolCallId: Option<string>)

  /** A message with nothing but a role and a text. */
  function Plain(role: Role, content: string): ChatMessage {
    ChatMessage(role, content, None, None, None)
  }

  /** The calls an assistant message makes. */
  function Calls(m: ChatMessage): seq<ToolCall> {
    if m.role.Assistant? && m.toolCalls.Some? then m.toolCalls.value else []
  }

  function IdSet(calls: seq<ToolCall>): set<string> {
    set tc | tc in calls :: tc.id
  }

  predicate CallsId(m: ChatMessage, id: string) {
    exists tc :: tc in Calls(m) && tc.id == id
  }

  predicate IsResult(m: ChatMessage, id: string) {
    m.role.Tool? && m.toolCallId == Some(id)
  }

  ghost predicate ResultAfter(h: seq<ChatMessage>, i: int, id: string) {
    exists j :: i < j < |h| && 0 <= j && IsResult(h[j], id)
  }

  /** Every call an assistant made has a result later in the history. */
  ghost predicate Answered(h: seq<ChatMessage>) {
    forall i, tc | 0 <= i < |h| && tc in Calls(h[i]) :: ResultAfter(h, i, tc.id)
  }

  /** The same, except that the calls in `pending` may still lack theirs. */
  ghost predicate AnsweredBut(h: seq<ChatMessage>, pending: seq<ToolCall>) {
    forall i, tc | 0 <= i < |h| && tc in Calls(h[i]) :: ResultAfter(h, i, tc.id) || tc in pending
  }

  /** Every tool call carried by any message, whatever its role. */
  function CarriedIds(h: seq<ChatMessage>): set<string> {
    set m, tc | m in h && m.toolCalls.Some? && tc in m.toolCalls.value :: tc.id
  }

  /** Every tool result that names a call belongs to a call carried by a message of the list. */
  ghost predicate NoOrphans(h: seq<ChatMessage>) {
    forall m | m in h && m.role.Tool? && m.toolCallId.Some? :: m.toolCallId.value in CarriedIds(h)
  }

  /** Tool results carry no calls of their own. */
  ghost predicate ToolsCarryNoCalls(h: seq<ChatMessage>) {
    forall m | m in h && m.role.Tool? :: m.toolCalls.None?
  }

  /** Same messages up to the contents of tool results. */
  ghost predicate SameShape(h: seq<ChatMessage>, h': seq<ChatMessage>) {
    && |h| == |h'|
    && forall k | 0 <= k < |h| :: SameMessageShape(h[k], h'[k])
  }

  ghost predicate SameMessageShape(m: ChatMessage, m': ChatMessage) {
    m' == m || (m.role.Tool? && m' == m.(content := m'.content))
  }

  // ---- How list operations treat the pairing ----

  /** Dropping the oldest messages keeps every remaining call answered. */
  lemma AnsweredSuffix(h: seq<ChatMessage>, k: nat)
    requires Answered(h) && k <= |h|
    ensures Answered(h[k..])
  {
    forall i, tc | 0 <= i < |h[k..]| && tc in Calls(h[k..][i]) ensures ResultAfter(h[k..], i, tc.id) {
      assert h[k..][i] == h[k + i];
    }
  }

  lemma ResultAfterCons(m: ChatMessage, h: seq<ChatMessage>, i: int, id: string)
    requires -1 <= i && ResultAfter(h, i, id)
    ensures ResultAfter([m] + h, i + 1, id)
  {
    var j :| i < j < |h| && 0 <= j && IsResult(h[j], id);
    assert ([m] + h)[j + 1] == h[j];
  }

  /** A message whose calls are answered somewhere behind it can be put in front. */
  lemma AnsweredCons(m: ChatMessage, h: seq<ChatMessage>)
    requires Answered(h) && forall tc | tc in Calls(m) :: ResultAfter(h, -1, tc.id)
    ensures Answered([m] + h)
  {
    var out := [m] + h;
    forall i, tc | 0 <= i < |out| && tc in Calls(out[i]) ensures ResultAfter(out, i, tc.id) {
      if i > 0 {
        assert out[i] == h[i - 1];
      }
      ResultAfterCons(m, h, i - 1, tc.id);
    }
  }

  lemma AnsweredPrepend(m: ChatMessage, h: seq<ChatMessage>)
    requires Calls(m) == []
    ensures Answered([m] + h) <==> Answered(h)
  {
    if Answered([m] + h) {
      AnsweredSuffix([m] + h, 1);
      assert ([m] + h)[1..] == h;
    }
    if Answered(h) {
      AnsweredCons(m, h);
    }
  }

  lemma {:induction false} AnsweredPrependAll(p: seq<ChatMessage>, h: seq<ChatMessage>)
    requires forall k | 0 <= k < |p| :: Calls(p[k]) == []
    ensures Answered(p + h) <==> Answered(h)
  {
    if p == [] {
      assert p + h == h;
    } else {
      AnsweredPrependAll(p[1..], h);
      AnsweredPrepend(p[0], p[1..] + h);
      assert p + h == [p[0]] + (p[1..] + h);
    }
  }

  lemma ResultAfterAppend(h: seq<ChatMessage>, m: ChatMessage, i: nat, id: string)
    requires i < |h| && (ResultAfter(h, i, id) || IsResult(m, id))
    ensures ResultAfter(h + [m], i, id)
  {
    if ResultAfter(h, i, id) {
      var j :| i < j < |h| && IsResult(h[j], id);
      assert (h + [m])[j] == h[j];
    } else {
      assert (h + [m])[|h|] == m;
    }
  }

  /** Appending a message: its own calls become pending, and a result settles the first pending call. */
  lemma AppendKeepsPairing(h: seq<ChatMessage>, m: ChatMessage, pending: seq<ToolCall>, pending': seq<ToolCall>)
    requires AnsweredBut(h, pending)
    requires forall tc | tc in pending :: tc in pending' || IsResult(m, tc.id)
    requires forall tc | tc in Calls(m) :: tc in pending'
    ensures AnsweredBut(h + [m], pending')
  {
    var h' := h + [m];
    forall i, tc | 0 <= i < |h'| && tc in Calls(h'[i]) ensures ResultAfter(h', i, tc.id) || tc in pending' {
      if i < |h| && tc !in pending' {
        assert h'[i] == h[i];
        ResultAfterAppend(h, m, i, tc.id);
      }
    }
  }

  lemma NothingPending(h: seq<ChatMessage>)
    ensures AnsweredBut(h, []) <==> Answered(h)
  {
    if AnsweredBut(h, []) {
      forall i, tc | 0 <= i < |h| && tc in Calls(h[i]) ensures ResultAfter(h, i, tc.id) {
      }
    }
  }

  lemma ShapeKeepsCarried(h: seq<ChatMessage>, h': seq<ChatMessage>)
    requires SameShape(h, h')
    ensures CarriedIds(h) <= CarriedIds(h')
  {
    forall m, tc | m in h && m.toolCalls.Some? && tc in m.toolCalls.value ensures tc.id in CarriedIds(h') {
      var k :| 0 <= k < |h| && h[k] == m;
      assert SameMessageShape(h[k], h'[k]);
      assert h'[k] in h' && tc in h'[k].toolCalls.value;
    }
  }

  lemma ShapeSymmetric(h: seq<ChatMessage>, h': seq<ChatMessage>)
    requires SameShape(h, h')
    ensures SameShape(h', h)
  {
    forall k | 0 <= k < |h| ensures SameMessageShape(h'[k], h[k]) {
      assert SameMessageShape(h[k], h'[k]);
    }
  }

  lemma ShapeKeepsCalls(h: seq<ChatMessage>, h': seq<ChatMessage>)
    requires SameShape(h, h')
    ensures CarriedIds(h) == CarriedIds(h')
    ensures NoOrphans(h) ==> NoOrphans(h')
  {
    ShapeSymmetric(h, h');
    ShapeKeepsCarried(h, h');
    ShapeKeepsCarried(h', h);
    forall m | m in h' && NoOrphans(h) && m.role.Tool? && m.toolCallId.Some? ensures m.toolCallId.value in CarriedIds(h) {
      var k :| 0 <= k < |h'| && h'[k] == m;
      assert SameMessageShape(h[k], h'[k]);
      assert h[k] in h;
    }
  }

  /** Editing the contents of tool results keeps every call answered and every result owned. */
  lemma ShapeKeepsPairing(h: seq<ChatMessage>, h': seq<ChatMessage>)
    requires SameShape(h, h')
    ensures Answered(h) ==> Answered(h')
    ensures ToolsCarryNoCalls(h) ==> ToolsCarryNoCalls(h')
    ensures CarriedIds(h) == CarriedIds(h')
    ensures NoOrphans(h) ==> NoOrphans(h')
  {
    ShapeKeepsCalls(h, h');
    if Answered(h) {
      forall i, tc | 0 <= i < |h'| && tc in Calls(h'[i]) ensures ResultAfter(h', i, tc.id) {
        assert SameMessageShape(h[i], h'[i]);
        assert tc in Calls(h[i]);
        assert ResultAfter(h, i, tc.id);
        var j :| i < j < |h| && IsResult(h[j], tc.id);
        assert SameMessageShape(h[j], h'[j]);
        assert IsResult(h'[j], tc.id);
      }
    }
    forall m | m in h' && m.role.Tool? && ToolsCarryNoCalls(h) ensures m.toolCalls.None? {
      var k :| 0 <= k < |h'| && h'[k] == m;
      assert SameMessageShape(h[k], h'[k]);
      assert h[k] in h;
    }
  }

  lemma ShapeTransitive(a: seq<ChatMessage>, b: seq<ChatMessage>, c: seq<ChatMessage>)
    requires SameShape(a, b) && SameShape(b, c)
    ensures SameShape(a, c)
  {
    forall k | 0 <= k < |a| ensures SameMessageShape(a[k], c[k]) {
      assert SameMessageShape(a[k], b[k]) && SameMessageShape(b[k], c[k]);
    }
  }

  lemma ShapeOfEdit(h: seq<ChatMessage>, k: nat, content: string)
    requires k < |h| && h[k].role.Tool?
    ensures SameShape(h, h[k := h[k].(content := content)])
  {
    var h' := h[k := h[k].(content := content)];
    forall i | 0 <= i < |h| ensures SameMessageShape(h[i], h'[i]) {
    }
  }
}
