/** Repair of tool-call and tool-result pairing in a loaded transcript. */
module TranscriptRepair {
  import opened Prelude
  import opened Chat

  const SYNTHETIC_ERROR :=
    "[oclaw] missing tool result in session history; inserted synthetic error result for transcript repair."

  datatype RepairReport = RepairReport(
    addedSynthetic: nat,
    droppedDuplicates: nat,
    droppedOrphans: nat,
    movedResults: bool)

  function SyntheticResult(id: string, toolName: string): ChatMessage {
    ChatMessage(Tool, SYNTHETIC_ERROR, Some(toolName), None, Some(id))
  }

  // ---- Reading a transcript ----

  function IfResult(m: ChatMessage, id: string): seq<ChatMessage> {
    if IsResult(m, id) then [m] else []
  }

  function ResultsFor(msgs: seq<ChatMessage>, id: string): seq<ChatMessage> {
    if msgs == [] then [] else IfResult(msgs[0], id) + ResultsFor(msgs[1..], id)
  }

  lemma {:induction false} ResultsForAreResults(msgs: seq<ChatMessage>, id: string, k: nat)
    requires k < |ResultsFor(msgs, id)|
    ensures IsResult(ResultsFor(msgs, id)[k], id)
  {
    var n := |IfResult(msgs[0], id)|;
    if k >= n {
      ResultsForAreResults(msgs[1..], id, k - n);
    }
  }

  function IfNonTool(m: ChatMessage): seq<ChatMessage> {
    if m.role.Tool? then [] else [m]
  }

  function NonTool(msgs: seq<ChatMessage>): seq<ChatMessage> {
    FlatMap(IfNonTool, msgs)
  }

  function IfToolId(m: ChatMessage): seq<string> {
    if m.role.Tool? && m.toolCallId.Some? then [m.toolCallId.value] else []
  }

  /** Ids of the tool messages that carry one, in order. */
  function ToolIds(msgs: seq<ChatMessage>): seq<string> {
    FlatMap(IfToolId, msgs)
  }

  function IdsOf(calls: seq<ToolCall>): seq<string> {
    if calls == [] then [] else [calls[0].id] + IdsOf(calls[1..])
  }

  function IdsCalledBy(m: ChatMessage): seq<string> {
    IdsOf(Calls(m))
  }

  /** All ids assistants call, in order, repeats included. */
  function CalledIds(msgs: seq<ChatMessage>): seq<string> {
    FlatMap(IdsCalledBy, msgs)
  }

  function IfUnseen(id: string, seen: set<string>): seq<string> {
    if id in seen then [] else [id]
  }

  function FirstOccurrences(ids: seq<string>, seen: set<string>): seq<string> {
    if ids == [] then [] else IfUnseen(ids[0], seen) + FirstOccurrences(ids[1..], seen + {ids[0]})
  }

  // ---- The repaired transcript ----

  function ResultOrSynthetic(all: seq<ChatMessage>, tc: ToolCall): (r: ChatMessage)
    ensures IsResult(r, tc.id)
  {
    var results := ResultsFor(all, tc.id);
    if results == [] then SyntheticResult(tc.id, tc.name)
    else
      ResultsForAreResults(all, tc.id, 0);
      results[0]
  }

  /** The results placed after a message that makes `calls`, when `seen` ids already have theirs. */
  function Place(all: seq<ChatMessage>, calls: seq<ToolCall>, seen: set<string>): seq<ChatMessage> {
    if calls == [] then []
    else
      (if calls[0].id in seen then [] else [ResultOrSynthetic(all, calls[0])])
      + Place(all, calls[1..], seen + {calls[0].id})
  }

  function RepairFrom(all: seq<ChatMessage>, msgs: seq<ChatMessage>, seen: set<string>): seq<ChatMessage> {
    if msgs == [] then []
    else if msgs[0].role.Tool? then RepairFrom(all, msgs[1..], seen)
    else
      [msgs[0]] + (Place(all, Calls(msgs[0]), seen) + RepairFrom(all, msgs[1..], seen + IdSet(Calls(msgs[0]))))
  }

  function Repaired(msgs: seq<ChatMessage>): seq<ChatMessage> {
    RepairFrom(msgs, msgs, {})
  }

  // ---- Shape of the placed block ----

  ghost predicate AllTool(s: seq<ChatMessage>) {
    forall k | 0 <= k < |s| :: s[k].role.Tool? && s[k].toolCallId.Some?
  }

  ghost predicate FirstCallAt(calls: seq<ToolCall>, c: int, id: string) {
    0 <= c < |calls| && calls[c].id == id && forall i | 0 <= i < c :: calls[i].id != id
  }

  ghost predicate FirstResultAt(all: seq<ChatMessage>, j: int, id: string) {
    0 <= j < |all| && IsResult(all[j], id) && forall i | 0 <= i < j :: !IsResult(all[i], id)
  }

  ghost predicate HasResult(all: seq<ChatMessage>, id: string) {
    exists j :: 0 <= j < |all| && IsResult(all[j], id)
  }

  /**
    `m` answers `id`, which the call at `c` is the first of `calls` to make: with the first input result for it,
    or, if there is none, with an error in the name of that call.
  */
  ghost predicate DueResult(all: seq<ChatMessage>, calls: seq<ToolCall>, m: ChatMessage, c: int, id: string) {
    && FirstCallAt(calls, c, id) && IsResult(m, id)
    && if HasResult(all, id) then exists j :: FirstResultAt(all, j, id) && m == all[j]
       else m == ChatMessage(Tool, SYNTHETIC_ERROR, Some(calls[c].name), None, Some(id))
  }

  /** `m` is the result due behind `caller`. */
  ghost predicate Due(all: seq<ChatMessage>, caller: ChatMessage, m: ChatMessage) {
    m.role.Tool? && m.toolCallId.Some? && exists c :: DueResult(all, Calls(caller), m, c, m.toolCallId.value)
  }

  lemma {:induction false} FirstResult(all: seq<ChatMessage>, id: string) returns (j: nat)
    ensures ResultsFor(all, id) == [] <==> !HasResult(all, id)
    ensures ResultsFor(all, id) != [] ==> FirstResultAt(all, j, id) && ResultsFor(all, id)[0] == all[j]
  {
    j := 0;
    if all != [] {
      var k := FirstResult(all[1..], id);
      assert forall i | 0 < i < |all| :: all[i] == all[1..][i - 1];
      if !IsResult(all[0], id) {
        j := k + 1;
        if HasResult(all, id) {
          var i :| 0 <= i < |all| && IsResult(all[i], id);
          assert IsResult(all[1..][i - 1], id);
        }
      }
    }
  }

  lemma PlacedIsDue(all: seq<ChatMessage>, calls: seq<ToolCall>)
    requires calls != []
    ensures DueResult(all, calls, ResultOrSynthetic(all, calls[0]), 0, calls[0].id)
  {
    var j := FirstResult(all, calls[0].id);
  }

  lemma DueFurtherOn(all: seq<ChatMessage>, calls: seq<ToolCall>, m: ChatMessage, c: nat, id: string)
    requires calls != [] && calls[0].id != id && DueResult(all, calls[1..], m, c, id)
    ensures DueResult(all, calls, m, c + 1, id)
  {
    assert forall i | 0 < i < |calls| :: calls[i] == calls[1..][i - 1];
  }

  lemma {:induction false} PlaceDue(all: seq<ChatMessage>, calls: seq<ToolCall>, seen: set<string>, k: nat)
    returns (c: nat)
    requires k < |Place(all, calls, seen)|
    ensures
      var m := Place(all, calls, seen)[k];
      m.toolCallId.Some? && DueResult(all, calls, m, c, m.toolCallId.value) && m.toolCallId.value !in seen
  {
    var tc := calls[0];
    var offset := if tc.id in seen then 0 else 1;
    if k < offset {
      c := 0;
      PlacedIsDue(all, calls);
    } else {
      var c' := PlaceDue(all, calls[1..], seen + {tc.id}, k - offset);
      var m := Place(all, calls[1..], seen + {tc.id})[k - offset];
      assert m == Place(all, calls, seen)[k];
      DueFurtherOn(all, calls, m, c', m.toolCallId.value);
      c := c' + 1;
    }
  }

  lemma PlaceAllTool(all: seq<ChatMessage>, calls: seq<ToolCall>, seen: set<string>)
    ensures AllTool(Place(all, calls, seen))
  {
    forall k | 0 <= k < |Place(all, calls, seen)|
      ensures Place(all, calls, seen)[k].role.Tool? && Place(all, calls, seen)[k].toolCallId.Some?
    {
      var c := PlaceDue(all, calls, seen, k);
    }
  }

  lemma {:induction false} PlaceIds(all: seq<ChatMessage>, calls: seq<ToolCall>, seen: set<string>)
    ensures ToolIds(Place(all, calls, seen)) == FirstOccurrences(IdsOf(calls), seen)
  {
    if calls != [] {
      var tc := calls[0];
      PlaceIds(all, calls[1..], seen + {tc.id});
      assert IdsOf(calls)[1..] == IdsOf(calls[1..]);
      if tc.id !in seen {
        FlatMapOne(IfToolId, ResultOrSynthetic(all, tc));
        FlatMapAppend(IfToolId, [ResultOrSynthetic(all, tc)], Place(all, calls[1..], seen + {tc.id}));
      } else {
        assert Place(all, calls, seen) == Place(all, calls[1..], seen + {tc.id});
      }
    }
  }

  lemma SeenWithAll(a: seq<string>, seen: set<string>)
    requires a != []
    ensures seen + {a[0]} + (set x | x in a[1..]) == seen + (set x | x in a)
  {
    assert a == [a[0]] + a[1..];
  }

  lemma {:induction false} FirstOccurrencesAppend(a: seq<string>, b: seq<string>, seen: set<string>)
    ensures FirstOccurrences(a + b, seen) == FirstOccurrences(a, seen) + FirstOccurrences(b, seen + (set x | x in a))
  {
    if a == [] {
      assert a + b == b && seen + (set x | x in a) == seen;
    } else {
      FirstOccurrencesAppend(a[1..], b, seen + {a[0]});
      assert (a + b)[1..] == a[1..] + b && (a + b)[0] == a[0];
      SeenWithAll(a, seen);
    }
  }

  lemma {:induction false} IdsOfMember(calls: seq<ToolCall>, id: string)
    ensures id in IdsOf(calls) <==> id in IdSet(calls)
  {
    if calls != [] {
      IdsOfMember(calls[1..], id);
      assert calls == [calls[0]] + calls[1..];
    }
  }

  lemma IdsOfSet(calls: seq<ToolCall>)
    ensures (set x | x in IdsOf(calls)) == IdSet(calls)
  {
    forall id ensures id in IdsOf(calls) <==> id in IdSet(calls) {
      IdsOfMember(calls, id);
    }
  }

  // ---- What repair keeps and what it emits ----

  lemma {:induction false} RepairFromKeeps(all: seq<ChatMessage>, msgs: seq<ChatMessage>, seen: set<string>)
    ensures NonTool(RepairFrom(all, msgs, seen)) == NonTool(msgs)
  {
    if msgs != [] {
      var m := msgs[0];
      if m.role.Tool? {
        RepairFromKeeps(all, msgs[1..], seen);
      } else {
        var seen' := seen + IdSet(Calls(m));
        var placed := Place(all, Calls(m), seen);
        RepairFromKeeps(all, msgs[1..], seen');
        PlaceAllTool(all, Calls(m), seen);
        FlatMapNothing(IfNonTool, placed);
        FlatMapAppend(IfNonTool, [m], placed + RepairFrom(all, msgs[1..], seen'));
        FlatMapAppend(IfNonTool, placed, RepairFrom(all, msgs[1..], seen'));
        FlatMapOne(IfNonTool, m);
      }
    }
  }

  /** All messages that are not tool results survive, in order. */
  lemma RepairKeepsNonTool(msgs: seq<ChatMessage>)
    ensures NonTool(Repaired(msgs)) == NonTool(msgs)
  {
    RepairFromKeeps(msgs, msgs, {});
  }

  lemma {:induction false} RepairFromIds(all: seq<ChatMessage>, msgs: seq<ChatMessage>, seen: set<string>)
    ensures ToolIds(RepairFrom(all, msgs, seen)) == FirstOccurrences(CalledIds(msgs), seen)
  {
    if msgs != [] {
      var m := msgs[0];
      if m.role.Tool? {
        RepairFromIds(all, msgs[1..], seen);
        assert CalledIds(msgs) == CalledIds(msgs[1..]);
      } else {
        var seen' := seen + IdSet(Calls(m));
        var placed := Place(all, Calls(m), seen);
        RepairFromIds(all, msgs[1..], seen');
        PlaceIds(all, Calls(m), seen);
        IdsOfSet(Calls(m));
        FirstOccurrencesAppend(IdsOf(Calls(m)), CalledIds(msgs[1..]), seen);
        FlatMapAppend(IfToolId, [m], placed + RepairFrom(all, msgs[1..], seen'));
        FlatMapAppend(IfToolId, placed, RepairFrom(all, msgs[1..], seen'));
        FlatMapOne(IfToolId, m);
      }
    }
  }

  /** The results appear in call order, one for each distinct called id and none for any other. */
  lemma RepairEmitsOnePerCall(msgs: seq<ChatMessage>)
    ensures ToolIds(Repaired(msgs)) == FirstOccurrences(CalledIds(msgs), {})
  {
    RepairFromIds(msgs, msgs, {});
  }

  /**
    `out[k]` sits in the block right after `out[p]`, the first message that calls its id, and is the result due
    there.
  */
  ghost predicate WellPlaced(all: seq<ChatMessage>, out: seq<ChatMessage>, p: int, k: int) {
    && 0 <= p < k < |out| && out[k].toolCallId.Some?
    && Due(all, out[p], out[k])
    && (forall q | 0 <= q < p :: !CallsId(out[q], out[k].toolCallId.value))
    && (forall q | p < q <= k :: out[q].role.Tool?)
  }

  /** `msgs[i]` is the first message that calls `id`. */
  ghost predicate FirstCallerAt(msgs: seq<ChatMessage>, i: int, id: string) {
    0 <= i < |msgs| && CallsId(msgs[i], id) && forall q | 0 <= q < i :: !CallsId(msgs[q], id)
  }

  /** A message followed by the results placed for it. */
  ghost predicate Block(all: seq<ChatMessage>, block: seq<ChatMessage>, seen: set<string>) {
    && block != [] && !block[0].role.Tool?
    && block[1..] == Place(all, Calls(block[0]), seen)
  }

  lemma BlockMember(all: seq<ChatMessage>, block: seq<ChatMessage>, seen: set<string>, k: nat)
    requires Block(all, block, seen) && 0 < k < |block|
    ensures block[k].role.Tool? && block[k].toolCallId.Some? && block[k].toolCallId.value !in seen
    ensures CallsId(block[0], block[k].toolCallId.value)
    ensures Due(all, block[0], block[k])
  {
    var c := PlaceDue(all, Calls(block[0]), seen, k - 1);
    assert block[k] == block[1..][k - 1];
    assert Calls(block[0])[c] in Calls(block[0]);
  }

  lemma PlacedInBlock(all: seq<ChatMessage>, block: seq<ChatMessage>, seen: set<string>, rest: seq<ChatMessage>, k: nat)
    requires Block(all, block, seen) && 0 < k < |block|
    ensures block[k].toolCallId.Some? && WellPlaced(all, block + rest, 0, k)
  {
    BlockMember(all, block, seen, k);
    var out := block + rest;
    forall q | 0 < q <= k ensures out[q].role.Tool? {
      BlockMember(all, block, seen, q);
    }
    assert out[k] == block[k] && out[0] == block[0];
  }

  lemma BlockDoesNotCall(all: seq<ChatMessage>, block: seq<ChatMessage>, seen: set<string>, id: string)
    requires Block(all, block, seen) && id !in IdSet(Calls(block[0]))
    ensures forall q | 0 <= q < |block| :: !CallsId(block[q], id)
  {
    forall q | 0 <= q < |block| ensures !CallsId(block[q], id) {
      if q > 0 {
        BlockMember(all, block, seen, q);
      }
    }
  }

  lemma PlacedFurtherOn(all: seq<ChatMessage>, prefix: seq<ChatMessage>, rest: seq<ChatMessage>, p: nat, k: nat)
    requires WellPlaced(all, rest, p, k)
    requires forall q | 0 <= q < |prefix| :: !CallsId(prefix[q], rest[k].toolCallId.value)
    ensures WellPlaced(all, prefix + rest, |prefix| + p, |prefix| + k)
  {
    var out := prefix + rest;
    assert out[|prefix| + p] == rest[p] && out[|prefix| + k] == rest[k];
    forall q | 0 <= q < |prefix| + p ensures !CallsId(out[q], rest[k].toolCallId.value) {
      assert q >= |prefix| ==> out[q] == rest[q - |prefix|];
    }
    forall q | |prefix| + p < q <= |prefix| + k ensures out[q].role.Tool? {
      assert out[q] == rest[q - |prefix|];
    }
  }

  lemma PlacedBehindBlock(all: seq<ChatMessage>, block: seq<ChatMessage>, rest: seq<ChatMessage>, seen: set<string>,
                          p: nat, k: nat)
    requires Block(all, block, seen) && WellPlaced(all, rest, p, k)
    requires rest[k].toolCallId.value !in seen + IdSet(Calls(block[0]))
    ensures WellPlaced(all, block + rest, |block| + p, |block| + k)
  {
    BlockDoesNotCall(all, block, seen, rest[k].toolCallId.value);
    PlacedFurtherOn(all, block, rest, p, k);
  }

  lemma BlockFirst(all: seq<ChatMessage>, msgs: seq<ChatMessage>, seen: set<string>)
    requires msgs != [] && !msgs[0].role.Tool?
    ensures
      var block := [msgs[0]] + Place(all, Calls(msgs[0]), seen);
      && Block(all, block, seen)
      && RepairFrom(all, msgs, seen) == block + RepairFrom(all, msgs[1..], seen + IdSet(Calls(msgs[0])))
  {
    var placed, rest := Place(all, Calls(msgs[0]), seen), RepairFrom(all, msgs[1..], seen + IdSet(Calls(msgs[0])));
    assert [msgs[0]] + (placed + rest) == [msgs[0]] + placed + rest;
  }

  lemma PlacedWithRest(all: seq<ChatMessage>, block: seq<ChatMessage>, rest: seq<ChatMessage>, seen: set<string>, k: nat)
    requires Block(all, block, seen) && 0 < k < |block|
    ensures WellPlaced(all, block + rest, 0, k) && (block + rest)[k].toolCallId.value !in seen
  {
    PlacedInBlock(all, block, seen, rest, k);
    BlockMember(all, block, seen, k);
  }

  lemma {:induction false} RepairFromPlaces(all: seq<ChatMessage>, msgs: seq<ChatMessage>, seen: set<string>,
                                            out: seq<ChatMessage>, k: nat)
    returns (p: nat)
    requires out == RepairFrom(all, msgs, seen) && k < |out| && out[k].role.Tool?
    ensures WellPlaced(all, out, p, k) && out[k].toolCallId.value !in seen
    decreases |msgs|
  {
    var m := msgs[0];
    if m.role.Tool? {
      p := RepairFromPlaces(all, msgs[1..], seen, out, k);
    } else {
      var seen' := seen + IdSet(Calls(m));
      var rest := RepairFrom(all, msgs[1..], seen');
      var block := [m] + Place(all, Calls(m), seen);
      assert Block(all, block, seen) && out == block + rest by {
        BlockFirst(all, msgs, seen);
      }
      if k < |block| {
        p := 0;
        PlacedWithRest(all, block, rest, seen, k);
      } else {
        assert out[k] == rest[k - |block|];
        var p' := RepairFromPlaces(all, msgs[1..], seen', rest, k - |block|);
        PlacedBehindBlock(all, block, rest, seen, p', k - |block|);
        p := |block| + p';
      }
    }
  }

  // -- the first message that calls an id, before and after repair

  function IfCaller(m: ChatMessage, id: string): seq<ChatMessage> {
    if CallsId(m, id) then [m] else []
  }

  function Callers(msgs: seq<ChatMessage>, id: string): seq<ChatMessage> {
    FlatMap(m => IfCaller(m, id), msgs)
  }

  /** Only messages that are no results call. */
  lemma {:induction false} CallersAreNonTool(msgs: seq<ChatMessage>, id: string)
    ensures Callers(msgs, id) == Callers(NonTool(msgs), id)
  {
    if msgs != [] {
      CallersAreNonTool(msgs[1..], id);
      if !msgs[0].role.Tool? {
        assert NonTool(msgs) == [msgs[0]] + NonTool(msgs[1..]);
      } else {
        assert NonTool(msgs) == NonTool(msgs[1..]);
      }
    }
  }

  lemma {:induction false} FirstCallerIsFirst(msgs: seq<ChatMessage>, i: nat, id: string)
    requires FirstCallerAt(msgs, i, id)
    ensures Callers(msgs, id) != [] && Callers(msgs, id)[0] == msgs[i]
  {
    if i > 0 {
      assert forall q | 0 < q < |msgs| :: msgs[q] == msgs[1..][q - 1];
      assert !CallsId(msgs[0], id);
      FirstCallerIsFirst(msgs[1..], i - 1, id);
    }
  }

  lemma {:induction false} SomeCallerIsFirst(msgs: seq<ChatMessage>, id: string) returns (i: nat)
    requires Callers(msgs, id) != []
    ensures FirstCallerAt(msgs, i, id)
  {
    if CallsId(msgs[0], id) {
      i := 0;
    } else {
      var i' := SomeCallerIsFirst(msgs[1..], id);
      assert forall q | 0 < q < |msgs| :: msgs[q] == msgs[1..][q - 1];
      i := i' + 1;
    }
  }

  lemma SameFirstCaller(a: seq<ChatMessage>, b: seq<ChatMessage>, p: nat, id: string) returns (i: nat)
    requires NonTool(a) == NonTool(b) && FirstCallerAt(a, p, id)
    ensures FirstCallerAt(b, i, id) && b[i] == a[p]
  {
    CallersAreNonTool(a, id);
    CallersAreNonTool(b, id);
    FirstCallerIsFirst(a, p, id);
    i := SomeCallerIsFirst(b, id);
    FirstCallerIsFirst(b, i, id);
  }

  /**
    Where each result of the repaired transcript comes from: it answers an id that `msgs[i]` is the first to call,
    stands in the block behind that message, and is the first result in `msgs` for the id, or else an error in the
    name of the first call.
  */
  lemma RepairPlacesResults(msgs: seq<ChatMessage>, k: nat) returns (p: nat, i: nat)
    requires k < |Repaired(msgs)| && Repaired(msgs)[k].role.Tool?
    ensures WellPlaced(msgs, Repaired(msgs), p, k)
    ensures FirstCallerAt(msgs, i, Repaired(msgs)[k].toolCallId.value) && msgs[i] == Repaired(msgs)[p]
  {
    var out := Repaired(msgs);
    p := RepairFromPlaces(msgs, msgs, {}, out, k);
    RepairKeepsNonTool(msgs);
    DueIsCalled(msgs, out[p], out[k]);
    i := SameFirstCaller(out, msgs, p, out[k].toolCallId.value);
  }

  lemma DueIsCalled(all: seq<ChatMessage>, caller: ChatMessage, m: ChatMessage)
    requires Due(all, caller, m)
    ensures CallsId(caller, m.toolCallId.value)
  {
    var c :| DueResult(all, Calls(caller), m, c, m.toolCallId.value);
    assert Calls(caller)[c] in Calls(caller);
  }

  // ---- First occurrences ----

  lemma {:induction false} FirstOccurrencesMember(ids: seq<string>, seen: set<string>, x: string)
    ensures x in FirstOccurrences(ids, seen) <==> x in ids && x !in seen
  {
    if ids != [] {
      FirstOccurrencesMember(ids[1..], seen + {ids[0]}, x);
      assert ids == [ids[0]] + ids[1..];
    }
  }

  lemma {:induction false} FirstOccurrencesDistinct(ids: seq<string>, seen: set<string>)
    ensures Distinct(FirstOccurrences(ids, seen))
  {
    if ids != [] {
      FirstOccurrencesDistinct(ids[1..], seen + {ids[0]});
      var rest := FirstOccurrences(ids[1..], seen + {ids[0]});
      forall k | 0 <= k < |rest| ensures rest[k] != ids[0] {
        FirstOccurrencesMember(ids[1..], seen + {ids[0]}, rest[k]);
      }
    }
  }

  lemma {:induction false} ResultsForMember(msgs: seq<ChatMessage>, id: string, m: ChatMessage)
    requires m in ResultsFor(msgs, id)
    ensures m in msgs
  {
    if m !in IfResult(msgs[0], id) {
      ResultsForMember(msgs[1..], id, m);
    }
  }

  /** Repair adds no calls to tool results. */
  lemma RepairKeepsToolsCallFree(msgs: seq<ChatMessage>)
    requires ToolsCarryNoCalls(msgs)
    ensures ToolsCarryNoCalls(Repaired(msgs))
  {
    var out := Repaired(msgs);
    forall m | m in out && m.role.Tool? ensures m.toolCalls.None? {
      var k :| 0 <= k < |out| && out[k] == m;
      var p, i := RepairPlacesResults(msgs, k);
      var id := m.toolCallId.value;
      if ResultsFor(msgs, id) != [] {
        ResultsForMember(msgs, id, ResultsFor(msgs, id)[0]);
      }
    }
  }

  // ---- Repairing twice ----

  lemma {:induction false} ResultsForUnique(msgs: seq<ChatMessage>, k: nat)
    requires Distinct(ToolIds(msgs)) && k < |msgs| && msgs[k].role.Tool? && msgs[k].toolCallId.Some?
    ensures ResultsFor(msgs, msgs[k].toolCallId.value) == [msgs[k]]
  {
    var id := msgs[k].toolCallId.value;
    var rest := msgs[1..];
    assert ToolIds(msgs) == IfToolId(msgs[0]) + ToolIds(rest);
    TailDistinct(IfToolId(msgs[0]), ToolIds(rest));
    if k == 0 {
      NoResults(rest, id);
    } else {
      ResultsForUnique(rest, k - 1);
      ToolIdsMember(rest, k - 1);
    }
  }

  lemma TailDistinct(a: seq<string>, b: seq<string>)
    requires Distinct(a + b)
    ensures Distinct(b)
    ensures forall x | x in a :: x !in b
  {
    forall i, j | 0 <= i < j < |b| ensures b[i] != b[j] {
      assert (a + b)[|a| + i] != (a + b)[|a| + j];
    }
    forall i, j | 0 <= i < |a| && 0 <= j < |b| ensures a[i] != b[j] {
      assert (a + b)[i] != (a + b)[|a| + j];
    }
  }

  lemma {:induction false} ToolIdsMember(msgs: seq<ChatMessage>, k: nat)
    requires k < |msgs| && msgs[k].role.Tool? && msgs[k].toolCallId.Some?
    ensures msgs[k].toolCallId.value in ToolIds(msgs)
  {
    if k > 0 {
      ToolIdsMember(msgs[1..], k - 1);
    }
  }

  lemma {:induction false} NoResults(msgs: seq<ChatMessage>, id: string)
    ensures id !in ToolIds(msgs) <==> ResultsFor(msgs, id) == []
  {
    if msgs != [] {
      NoResults(msgs[1..], id);
    }
  }

  lemma {:induction false} RepairSkipsTools(all: seq<ChatMessage>, tools: seq<ChatMessage>, rest: seq<ChatMessage>, seen: set<string>)
    requires AllTool(tools)
    ensures RepairFrom(all, tools + rest, seen) == RepairFrom(all, rest, seen)
  {
    if tools == [] {
      assert tools + rest == rest;
    } else {
      RepairSkipsTools(all, tools[1..], rest, seen);
      assert (tools + rest)[1..] == tools[1..] + rest;
    }
  }

  ghost predicate OffersAll(again: seq<ChatMessage>, out: seq<ChatMessage>) {
    forall k | 0 <= k < |out| && out[k].role.Tool? ::
      out[k].toolCallId.Some? && ResultsFor(again, out[k].toolCallId.value) == [out[k]]
  }

  lemma OffersParts(again: seq<ChatMessage>, a: seq<ChatMessage>, b: seq<ChatMessage>)
    requires OffersAll(again, a + b)
    ensures OffersAll(again, a) && OffersAll(again, b)
  {
    forall k | 0 <= k < |a| && a[k].role.Tool?
      ensures a[k].toolCallId.Some? && ResultsFor(again, a[k].toolCallId.value) == [a[k]]
    {
      assert (a + b)[k] == a[k];
    }
    forall k | 0 <= k < |b| && b[k].role.Tool?
      ensures b[k].toolCallId.Some? && ResultsFor(again, b[k].toolCallId.value) == [b[k]]
    {
      assert (a + b)[|a| + k] == b[k];
    }
  }

  /** The results placed before are the ones placed again, if `again` offers each of them. */
  lemma {:induction false} PlaceAgain(all: seq<ChatMessage>, again: seq<ChatMessage>, calls: seq<ToolCall>, seen: set<string>)
    requires OffersAll(again, Place(all, calls, seen))
    ensures Place(again, calls, seen) == Place(all, calls, seen)
  {
    if calls != [] {
      var rest := Place(all, calls[1..], seen + {calls[0].id});
      if calls[0].id in seen {
        assert Place(all, calls, seen) == rest;
      } else {
        var first := ResultOrSynthetic(all, calls[0]);
        OffersParts(again, [first], rest);
        assert [first][0].role.Tool?;
      }
      PlaceAgain(all, again, calls[1..], seen + {calls[0].id});
    }
  }

  lemma RepairBlockAgain(again: seq<ChatMessage>, m: ChatMessage, placed: seq<ChatMessage>, rest: seq<ChatMessage>, seen: set<string>)
    requires !m.role.Tool? && AllTool(placed) && Place(again, Calls(m), seen) == placed
    requires RepairFrom(again, rest, seen + IdSet(Calls(m))) == rest
    ensures RepairFrom(again, [m] + (placed + rest), seen) == [m] + (placed + rest)
  {
    RepairSkipsTools(again, placed, rest, seen + IdSet(Calls(m)));
    assert ([m] + (placed + rest))[1..] == placed + rest;
  }

  lemma {:induction false} RepairFromAgain(all: seq<ChatMessage>, again: seq<ChatMessage>, msgs: seq<ChatMessage>,
                                           seen: set<string>, out: seq<ChatMessage>)
    requires out == RepairFrom(all, msgs, seen) && OffersAll(again, out)
    ensures RepairFrom(again, out, seen) == out
    decreases |msgs|
  {
    if msgs != [] {
      var m := msgs[0];
      if m.role.Tool? {
        RepairFromAgain(all, again, msgs[1..], seen, out);
      } else {
        var placed := Place(all, Calls(m), seen);
        var rest := RepairFrom(all, msgs[1..], seen + IdSet(Calls(m)));
        RepairTailAgain(all, again, m, placed, rest, seen, out);
        RepairFromAgain(all, again, msgs[1..], seen + IdSet(Calls(m)), rest);
        RepairBlockAgain(again, m, placed, rest, seen);
      }
    }
  }

  lemma RepairTailAgain(all: seq<ChatMessage>, again: seq<ChatMessage>, m: ChatMessage, placed: seq<ChatMessage>,
                        rest: seq<ChatMessage>, seen: set<string>, out: seq<ChatMessage>)
    requires out == [m] + (placed + rest) && placed == Place(all, Calls(m), seen) && OffersAll(again, out)
    ensures OffersAll(again, rest) && AllTool(placed) && Place(again, Calls(m), seen) == placed
  {
    OffersParts(again, [m], placed + rest);
    OffersParts(again, placed, rest);
    PlaceAllTool(all, Calls(m), seen);
    PlaceAgain(all, again, Calls(m), seen);
  }

  lemma RepairedResultsUnique(msgs: seq<ChatMessage>)
    ensures OffersAll(Repaired(msgs), Repaired(msgs))
  {
    var out := Repaired(msgs);
    RepairEmitsOnePerCall(msgs);
    FirstOccurrencesDistinct(CalledIds(msgs), {});
    forall k | 0 <= k < |out| && out[k].role.Tool?
      ensures out[k].toolCallId.Some? && ResultsFor(out, out[k].toolCallId.value) == [out[k]]
    {
      var p, i := RepairPlacesResults(msgs, k);
      ResultsForUnique(out, k);
    }
  }

  /** Repairing a repaired transcript changes nothing. */
  lemma RepairIdempotent(msgs: seq<ChatMessage>)
    ensures Repaired(Repaired(msgs)) == Repaired(msgs)
  {
    RepairedResultsUnique(msgs);
    RepairFromAgain(msgs, Repaired(msgs), msgs, {}, Repaired(msgs));
  }

  // ---- When every call ends up with a later result ----

  /** No id is called by two messages. */
  ghost predicate CallsDisjoint(msgs: seq<ChatMessage>) {
    forall i, j, id: string | 0 <= i < j < |msgs| && CallsId(msgs[i], id) :: !CallsId(msgs[j], id)
  }

  /** The same, following the sequence. */
  ghost predicate NoReuse(msgs: seq<ChatMessage>) {
    msgs == [] || ((forall id | CallsId(msgs[0], id) :: id !in CalledIds(msgs[1..])) && NoReuse(msgs[1..]))
  }

  lemma CallsIdMember(m: ChatMessage, id: string)
    ensures CallsId(m, id) <==> id in IdsCalledBy(m)
    ensures CallsId(m, id) <==> id in IdSet(Calls(m))
  {
    IdsOfMember(Calls(m), id);
  }

  lemma {:induction false} CalledIdsMember(msgs: seq<ChatMessage>, id: string)
    ensures id in CalledIds(msgs) <==> exists k :: 0 <= k < |msgs| && CallsId(msgs[k], id)
  {
    if msgs != [] {
      CallsIdMember(msgs[0], id);
      CalledIdsMember(msgs[1..], id);
      assert CalledIds(msgs) == IdsCalledBy(msgs[0]) + CalledIds(msgs[1..]);
      if k :| 0 <= k < |msgs| && CallsId(msgs[k], id) {
        assert k > 0 ==> msgs[1..][k - 1] == msgs[k];
      }
      if k :| 0 <= k < |msgs[1..]| && CallsId(msgs[1..][k], id) {
        assert msgs[k + 1] == msgs[1..][k];
      }
    }
  }

  lemma {:induction false} NoReuseIsDisjoint(msgs: seq<ChatMessage>)
    ensures NoReuse(msgs) <==> CallsDisjoint(msgs)
  {
    if msgs != [] {
      NoReuseIsDisjoint(msgs[1..]);
      forall id ensures id in CalledIds(msgs[1..]) <==> exists k :: 0 <= k < |msgs[1..]| && CallsId(msgs[1..][k], id) {
        CalledIdsMember(msgs[1..], id);
      }
      if CallsDisjoint(msgs) {
        DisjointTail(msgs);
      }
    }
  }

  lemma DisjointTail(msgs: seq<ChatMessage>)
    requires msgs != [] && CallsDisjoint(msgs)
    ensures CallsDisjoint(msgs[1..])
    ensures forall id, k | CallsId(msgs[0], id) && 0 <= k < |msgs[1..]| :: !CallsId(msgs[1..][k], id)
  {
    forall i, j, id: string | 0 <= i < j < |msgs[1..]| && CallsId(msgs[1..][i], id) ensures !CallsId(msgs[1..][j], id) {
      assert msgs[1..][i] == msgs[i + 1] && msgs[1..][j] == msgs[j + 1];
    }
    forall id, k | CallsId(msgs[0], id) && 0 <= k < |msgs[1..]| ensures !CallsId(msgs[1..][k], id) {
      assert msgs[1..][k] == msgs[k + 1];
    }
  }

  lemma {:induction false} NonToolCalls(msgs: seq<ChatMessage>)
    ensures CalledIds(NonTool(msgs)) == CalledIds(msgs) && (NoReuse(NonTool(msgs)) <==> NoReuse(msgs))
  {
    if msgs != [] {
      NonToolCalls(msgs[1..]);
      if msgs[0].role.Tool? {
        assert NonTool(msgs) == NonTool(msgs[1..]);
        assert CalledIds(msgs) == CalledIds(msgs[1..]);
      } else {
        assert NonTool(msgs) == [msgs[0]] + NonTool(msgs[1..]);
        assert NonTool(msgs)[1..] == NonTool(msgs[1..]);
      }
    }
  }

  lemma RepairKeepsReuse(msgs: seq<ChatMessage>)
    ensures CallsDisjoint(Repaired(msgs)) <==> CallsDisjoint(msgs)
    ensures CalledIds(Repaired(msgs)) == CalledIds(msgs)
  {
    RepairKeepsNonTool(msgs);
    NonToolCalls(msgs);
    NonToolCalls(Repaired(msgs));
    NoReuseIsDisjoint(msgs);
    NoReuseIsDisjoint(Repaired(msgs));
  }

  lemma {:induction false} ToolIdIndex(msgs: seq<ChatMessage>, id: string) returns (k: nat)
    requires id in ToolIds(msgs)
    ensures k < |msgs| && IsResult(msgs[k], id)
  {
    if IsResult(msgs[0], id) {
      k := 0;
    } else {
      assert ToolIds(msgs) == IfToolId(msgs[0]) + ToolIds(msgs[1..]);
      var k' := ToolIdIndex(msgs[1..], id);
      k := k' + 1;
    }
  }

  /** A called id has a result in the block of the first message that calls it. */
  lemma CalledIdHasResult(msgs: seq<ChatMessage>, id: string) returns (p: nat, k: nat)
    requires id in CalledIds(msgs)
    ensures p < k < |Repaired(msgs)| && CallsId(Repaired(msgs)[p], id) && IsResult(Repaired(msgs)[k], id)
    ensures WellPlaced(msgs, Repaired(msgs), p, k)
  {
    RepairEmitsOnePerCall(msgs);
    FirstOccurrencesMember(CalledIds(msgs), {}, id);
    k := ToolIdIndex(Repaired(msgs), id);
    var i := 0;
    p, i := RepairPlacesResults(msgs, k);
  }

  lemma ReusedCallUnanswered(msgs: seq<ChatMessage>, i: nat, j: nat, id: string)
    requires i < j < |Repaired(msgs)| && CallsId(Repaired(msgs)[i], id) && CallsId(Repaired(msgs)[j], id)
    ensures !ResultAfter(Repaired(msgs), j, id)
  {
    var out := Repaired(msgs);
    if k :| j < k < |out| && IsResult(out[k], id) {
      var p, i := RepairPlacesResults(msgs, k);
    }
  }

  lemma UnreusedCallAnswered(msgs: seq<ChatMessage>, i: nat, id: string)
    requires CallsDisjoint(Repaired(msgs)) && i < |Repaired(msgs)| && CallsId(Repaired(msgs)[i], id)
    ensures ResultAfter(Repaired(msgs), i, id)
  {
    RepairKeepsReuse(msgs);
    CalledIdsMember(Repaired(msgs), id);
    var p, k := CalledIdHasResult(msgs, id);
    assert p == i;
  }

  /** Repair leaves every call with a later result exactly when no two messages call the same id. */
  lemma RepairAnswersIff(msgs: seq<ChatMessage>)
    ensures Answered(Repaired(msgs)) <==> CallsDisjoint(msgs)
  {
    var out := Repaired(msgs);
    RepairKeepsReuse(msgs);
    if CallsDisjoint(msgs) {
      forall i, tc | 0 <= i < |out| && tc in Calls(out[i]) ensures ResultAfter(out, i, tc.id) {
        UnreusedCallAnswered(msgs, i, tc.id);
      }
    } else {
      var i, j, id: string :| 0 <= i < j < |out| && CallsId(out[i], id) && CallsId(out[j], id);
      ReusedCallUnanswered(msgs, i, j, id);
    }
  }

  // ---- The report ----

  /** Ids of `seen` for which the transcript holds no result. */
  ghost function Missing(all: seq<ChatMessage>, seen: set<string>): set<string> {
    set id | id in seen && ResultsFor(all, id) == []
  }

  predicate IsOrphan(m: ChatMessage, seen: set<string>) {
    m.role.Tool? && m.toolCallId.Some? && m.toolCallId.value !in seen
  }

  ghost function Orphans(all: seq<ChatMessage>, seen: set<string>): set<int> {
    set i | 0 <= i < |all| && IsOrphan(all[i], seen)
  }

  /** Adds up a weight per called id, which may depend on whether the id was called before. */
  function Tally(weight: (string, bool) -> nat, ids: seq<string>, seen: set<string>): nat {
    if ids == [] then 0 else weight(ids[0], ids[0] in seen) + Tally(weight, ids[1..], seen + {ids[0]})
  }

  /** A first call of an id without results costs one synthetic result. */
  function SyntheticWeight(all: seq<ChatMessage>): (string, bool) -> nat {
    (id, again) => if !again && ResultsFor(all, id) == [] then 1 else 0
  }

  /** The duplicate counter: a repeated call counts every result of its id. */
  function RepeatWeight(all: seq<ChatMessage>): (string, bool) -> nat {
    (id, again) => if again then |ResultsFor(all, id)| else 0
  }

  ghost function Called(msgs: seq<ChatMessage>): set<string> {
    set id | id in CalledIds(msgs)
  }

  ghost function ReportOf(msgs: seq<ChatMessage>): RepairReport {
    RepairReport(
      |Missing(msgs, Called(msgs))|,
      Tally(RepeatWeight(msgs), CalledIds(msgs), {}),
      |Orphans(msgs, Called(msgs))|,
      ToolIds(msgs) != ToolIds(Repaired(msgs)))
  }

  /** A second repair reports no synthetic result, no orphan and no move. */
  lemma SecondReportIsClean(msgs: seq<ChatMessage>)
    ensures
      var report := ReportOf(Repaired(msgs));
      report.addedSynthetic == 0 && report.droppedOrphans == 0 && !report.movedResults
  {
    var out := Repaired(msgs);
    RepairIdempotent(msgs);
    RepairEmitsOnePerCall(msgs);
    RepairKeepsReuse(msgs);
    forall id | id in Called(out) ensures ResultsFor(out, id) != [] {
      FirstOccurrencesMember(CalledIds(msgs), {}, id);
      NoResults(out, id);
    }
    forall k | 0 <= k < |out| ensures !IsOrphan(out[k], Called(out)) {
      if out[k].role.Tool? && out[k].toolCallId.Some? {
        ToolIdsMember(out, k);
        FirstOccurrencesMember(CalledIds(msgs), {}, out[k].toolCallId.value);
      }
    }
    assert Missing(out, Called(out)) == {};
    assert Orphans(out, Called(out)) == {};
  }

  /** Some message of the history asks for it. */
  ghost predicate IsCalled(msgs: seq<ChatMessage>, id: string) {
    exists k :: 0 <= k < |msgs| && CallsId(msgs[k], id)
  }

  /** The position holds a tool result whose call no message makes. */
  ghost predicate StrayAt(msgs: seq<ChatMessage>, k: int) {
    0 <= k < |msgs| && msgs[k].role.Tool? && msgs[k].toolCallId.Some? && !IsCalled(msgs, msgs[k].toolCallId.value)
  }

  /**
    What the report says of the history: how many called ids have no result in it, how many positions hold a result
    that nothing calls, and whether the ids of the results come in another order.
  */
  lemma ReportMeaning(msgs: seq<ChatMessage>) returns (missing: set<string>, strays: set<int>)
    ensures forall id :: id in missing <==> IsCalled(msgs, id) && !HasResult(msgs, id)
    ensures forall k :: k in strays <==> StrayAt(msgs, k)
    ensures
      var report := ReportOf(msgs);
      && report.addedSynthetic == |missing| && report.droppedOrphans == |strays|
      && (report.movedResults <==> ToolIds(msgs) != ToolIds(Repaired(msgs)))
  {
    forall id ensures id in Called(msgs) <==> IsCalled(msgs, id) {
      CalledIdsMember(msgs, id);
    }
    forall id ensures ResultsFor(msgs, id) == [] <==> !HasResult(msgs, id) {
      var j := FirstResult(msgs, id);
    }
    missing := Missing(msgs, Called(msgs));
    strays := Orphans(msgs, Called(msgs));
  }

  // ---- The repair loop ----

  function Pooled(pool: map<string, seq<ChatMessage>>, id: string): seq<ChatMessage> {
    if id in pool then pool[id] else []
  }

  lemma {:induction false} ResultsForAppend(a: seq<ChatMessage>, m: ChatMessage, id: string)
    ensures ResultsFor(a + [m], id) == ResultsFor(a, id) + IfResult(m, id)
  {
    if a == [] {
      assert a + [m] == [m];
      assert [m][1..] == [];
    } else {
      ResultsForAppend(a[1..], m, id);
      assert (a + [m])[1..] == a[1..] + [m] && (a + [m])[0] == a[0];
      var here, rest := IfResult(a[0], id), ResultsFor(a[1..], id);
      assert here + (rest + IfResult(m, id)) == here + rest + IfResult(m, id);
    }
  }

  ghost predicate PoolOf(pool: map<string, seq<ChatMessage>>, msgs: seq<ChatMessage>) {
    forall id: string {:trigger Pooled(pool, id)} ::
      Pooled(pool, id) == ResultsFor(msgs, id) && (id in pool ==> pool[id] != [])
  }

  method CollectResults(messages: seq<ChatMessage>) returns (pool: map<string, seq<ChatMessage>>)
    ensures PoolOf(pool, messages)
  {
    pool := map[];
    for i := 0 to |messages|
      invariant PoolOf(pool, messages[..i])
    {
      var m := messages[i];
      ghost var before := pool;
      assert messages[..i + 1] == messages[..i] + [m];
      if m.role.Tool? && m.toolCallId.Some? {
        var id := m.toolCallId.value;
        pool := pool[id := Pooled(pool, id) + [m]];
      }
      forall id: string
        ensures Pooled(pool, id) == ResultsFor(messages[..i + 1], id) && (id in pool ==> pool[id] != [])
      {
        ResultsForAppend(messages[..i], m, id);
        assert Pooled(before, id) == ResultsFor(messages[..i], id);
      }
    }
    assert messages[..|messages|] == messages;
  }

  /** Pairs one call: its first result, a synthetic one, or nothing when the id is already paired. */
  method PairCall(tc: ToolCall, pool: map<string, seq<ChatMessage>>, seen: set<string>, ghost all: seq<ChatMessage>)
    returns (placed: seq<ChatMessage>, synthetic: nat, duplicates: nat)
    requires PoolOf(pool, all)
    ensures placed == if tc.id in seen then [] else [ResultOrSynthetic(all, tc)]
    ensures synthetic == if tc.id !in seen && ResultsFor(all, tc.id) == [] then 1 else 0
    ensures duplicates == if tc.id in seen then |ResultsFor(all, tc.id)| else 0
  {
    placed, synthetic, duplicates := [], 0, 0;
    assert Pooled(pool, tc.id) == ResultsFor(all, tc.id);
    if tc.id in pool {
      var results := pool[tc.id];
      var r := 0;
      var seen' := seen;
      var done := false;
      while r < |results| && !done
        invariant r <= |results|
        invariant tc.id in seen ==> !done && placed == [] && duplicates == r && seen' == seen
        invariant tc.id !in seen && !done ==> r == 0 && placed == [] && duplicates == 0 && seen' == seen
        invariant tc.id !in seen && done ==> placed == [results[0]] && duplicates == 0 && tc.id in seen'
      {
        if tc.id in seen' {
          duplicates := duplicates + 1;
        } else {
          seen' := seen' + {tc.id};
          placed := placed + [results[r]];
          done := true;
        }
        r := r + 1;
      }
      // A pooled id has a result, so the fallback to a synthetic one is never needed here.
      assert done || tc.id in seen';
    } else if tc.id !in seen {
      placed := [SyntheticResult(tc.id, tc.name)];
      synthetic := 1;
    }
  }

  /** What the loops carry along. */
  datatype Progress = Progress(result: seq<ChatMessage>, seen: set<string>, synthetic: nat, duplicates: nat)

  function AfterCall(all: seq<ChatMessage>, tc: ToolCall, p: Progress): Progress {
    Progress(
      p.result + (if tc.id in p.seen then [] else [ResultOrSynthetic(all, tc)]),
      p.seen + {tc.id},
      p.synthetic + SyntheticWeight(all)(tc.id, tc.id in p.seen),
      p.duplicates + RepeatWeight(all)(tc.id, tc.id in p.seen))
  }

  function AfterCalls(all: seq<ChatMessage>, calls: seq<ToolCall>, p: Progress): Progress {
    if calls == [] then p else AfterCalls(all, calls[1..], AfterCall(all, calls[0], p))
  }

  function AfterMessage(all: seq<ChatMessage>, m: ChatMessage, p: Progress): Progress {
    if m.role.Tool? then p else AfterCalls(all, Calls(m), p.(result := p.result + [m]))
  }

  function AfterMessages(all: seq<ChatMessage>, msgs: seq<ChatMessage>, p: Progress): Progress {
    if msgs == [] then p else AfterMessages(all, msgs[1..], AfterMessage(all, msgs[0], p))
  }

  /** Pairs the calls of one assistant message. */
  method PairCalls(calls: seq<ToolCall>, pool: map<string, seq<ChatMessage>>, p: Progress, ghost all: seq<ChatMessage>)
    returns (r: Progress)
    requires PoolOf(pool, all)
    ensures r == AfterCalls(all, calls, p)
  {
    r := p;
    assert calls[0..] == calls;
    for k := 0 to |calls|
      invariant AfterCalls(all, calls[k..], r) == AfterCalls(all, calls, p)
    {
      assert calls[k..][1..] == calls[k + 1..];
      var placed, synthetic, duplicates := PairCall(calls[k], pool, r.seen, all);
      r := Progress(r.result + placed, r.seen + {calls[k].id}, r.synthetic + synthetic, r.duplicates + duplicates);
    }
  }

  lemma {:induction false} AfterCallsSpec(all: seq<ChatMessage>, calls: seq<ToolCall>, p: Progress)
    ensures
      var r := AfterCalls(all, calls, p);
      && r.result == p.result + Place(all, calls, p.seen)
      && r.seen == p.seen + IdSet(calls)
      && r.synthetic == p.synthetic + Tally(SyntheticWeight(all), IdsOf(calls), p.seen)
      && r.duplicates == p.duplicates + Tally(RepeatWeight(all), IdsOf(calls), p.seen)
  {
    if calls != [] {
      AfterCallsSpec(all, calls[1..], AfterCall(all, calls[0], p));
      assert calls == [calls[0]] + calls[1..];
      assert IdsOf(calls)[1..] == IdsOf(calls[1..]);
    }
  }

  lemma {:induction false} AfterMessagesResult(all: seq<ChatMessage>, msgs: seq<ChatMessage>, p: Progress)
    ensures AfterMessages(all, msgs, p).result == p.result + RepairFrom(all, msgs, p.seen)
  {
    if msgs != [] {
      var m := msgs[0];
      var q := AfterMessage(all, m, p);
      AfterMessagesResult(all, msgs[1..], q);
      if !m.role.Tool? {
        AfterCallsSpec(all, Calls(m), p.(result := p.result + [m]));
      }
    }
  }

  lemma {:induction false} AfterMessagesCounts(all: seq<ChatMessage>, msgs: seq<ChatMessage>, p: Progress)
    ensures
      var r := AfterMessages(all, msgs, p);
      && r.seen == p.seen + Called(msgs)
      && r.synthetic == p.synthetic + Tally(SyntheticWeight(all), CalledIds(msgs), p.seen)
      && r.duplicates == p.duplicates + Tally(RepeatWeight(all), CalledIds(msgs), p.seen)
  {
    if msgs != [] {
      var m := msgs[0];
      AfterMessagesCounts(all, msgs[1..], AfterMessage(all, m, p));
      assert CalledIds(msgs) == IdsOf(Calls(m)) + CalledIds(msgs[1..]);
      IdsOfSet(Calls(m));
      if m.role.Tool? {
        assert CalledIds(msgs) == CalledIds(msgs[1..]);
      } else {
        AfterCallsSpec(all, Calls(m), p.(result := p.result + [m]));
        TallyAppend(SyntheticWeight(all), IdsOf(Calls(m)), CalledIds(msgs[1..]), p.seen);
        TallyAppend(RepeatWeight(all), IdsOf(Calls(m)), CalledIds(msgs[1..]), p.seen);
      }
    }
  }

  lemma {:induction false} TallyAppend(weight: (string, bool) -> nat, a: seq<string>, b: seq<string>, seen: set<string>)
    ensures Tally(weight, a + b, seen) == Tally(weight, a, seen) + Tally(weight, b, seen + (set x | x in a))
  {
    if a == [] {
      assert a + b == b;
      assert seen + (set x | x in a) == seen;
    } else {
      TallyAppend(weight, a[1..], b, seen + {a[0]});
      assert (a + b)[1..] == a[1..] + b;
      assert a == [a[0]] + a[1..];
      assert seen + {a[0]} + (set x | x in a[1..]) == seen + (set x | x in a);
    }
  }

  lemma {:induction false} SyntheticTally(all: seq<ChatMessage>, ids: seq<string>, seen: set<string>)
    ensures |Missing(all, seen)| + Tally(SyntheticWeight(all), ids, seen) == |Missing(all, seen + (set x | x in ids))|
  {
    if ids == [] {
      assert seen + (set x | x in ids) == seen;
    } else {
      SyntheticTally(all, ids[1..], seen + {ids[0]});
      assert ids == [ids[0]] + ids[1..];
      assert seen + {ids[0]} + (set x | x in ids[1..]) == seen + (set x | x in ids);
      MissingGrows(all, seen, ids[0]);
    }
  }

  lemma MissingGrows(all: seq<ChatMessage>, seen: set<string>, id: string)
    ensures |Missing(all, seen + {id})| == |Missing(all, seen)| + SyntheticWeight(all)(id, id in seen)
  {
    if id !in seen && ResultsFor(all, id) == [] {
      assert Missing(all, seen + {id}) == Missing(all, seen) + {id};
    } else {
      assert Missing(all, seen + {id}) == Missing(all, seen);
    }
  }

  method CountOrphans(messages: seq<ChatMessage>, seen: set<string>) returns (n: nat)
    ensures n == |Orphans(messages, seen)|
  {
    n := 0;
    for i := 0 to |messages|
      invariant n == |Orphans(messages[..i], seen)|
    {
      assert messages[..i + 1] == messages[..i] + [messages[i]];
      if IsOrphan(messages[i], seen) {
        assert Orphans(messages[..i + 1], seen) == Orphans(messages[..i], seen) + {i};
        n := n + 1;
      } else {
        assert Orphans(messages[..i + 1], seen) == Orphans(messages[..i], seen);
      }
    }
    assert messages[..|messages|] == messages;
  }

  method RepairToolUseResultPairing(messages: seq<ChatMessage>)
    returns (result: seq<ChatMessage>, report: RepairReport)
    ensures result == Repaired(messages)
    ensures report == ReportOf(messages)
  {
    var pool := CollectResults(messages);
    var p := Progress([], {}, 0, 0);
    assert messages[0..] == messages;
    for i := 0 to |messages|
      invariant AfterMessages(messages, messages[i..], p) == AfterMessages(messages, messages, Progress([], {}, 0, 0))
    {
      assert messages[i..][1..] == messages[i + 1..];
      if !messages[i].role.Tool? {
        p := PairCalls(Calls(messages[i]), pool, p.(result := p.result + [messages[i]]), messages);
      }
    }
    AfterMessagesResult(messages, messages, Progress([], {}, 0, 0));
    AfterMessagesCounts(messages, messages, Progress([], {}, 0, 0));
    SyntheticCount(messages);
    assert p.seen == Called(messages);
    result := p.result;
    assert result == Repaired(messages);
    var orphans := CountOrphans(messages, p.seen);
    report := RepairReport(p.synthetic, p.duplicates, orphans, ToolIds(messages) != ToolIds(result));
  }

  lemma SyntheticCount(msgs: seq<ChatMessage>)
    ensures Tally(SyntheticWeight(msgs), CalledIds(msgs), {}) == |Missing(msgs, Called(msgs))|
  {
    SyntheticTally(msgs, CalledIds(msgs), {});
    assert Missing(msgs, {}) == {};
    assert {} + (set x | x in CalledIds(msgs)) == Called(msgs);
  }

  // ---- The duplicate counter ----

  /** The call at `k` is the first of its id. */
  ghost predicate FirstTime(ids: seq<string>, seen: set<string>, k: nat)
    requires k < |ids|
  {
    ids[k] !in seen && ids[k] !in ids[..k]
  }

  lemma FirstTimeTail(ids: seq<string>, seen: set<string>, k: nat)
    requires 0 < k < |ids|
    ensures FirstTime(ids, seen, k) <==> FirstTime(ids[1..], seen + {ids[0]}, k - 1)
    ensures ids[k] == ids[1..][k - 1]
  {
    assert ids[..k] == [ids[0]] + ids[1..][..k - 1];
  }

  /** It is zero exactly when no id that has a result is called again. */
  lemma {:induction false} RepeatTallyZero(all: seq<ChatMessage>, ids: seq<string>, seen: set<string>)
    ensures Tally(RepeatWeight(all), ids, seen) == 0 <==>
      forall k: nat | k < |ids| && ResultsFor(all, ids[k]) != [] :: FirstTime(ids, seen, k)
  {
    if ids != [] {
      var rest, seen' := ids[1..], seen + {ids[0]};
      RepeatTallyZero(all, rest, seen');
      forall k: nat | 0 < k < |ids|
        ensures FirstTime(ids, seen, k) <==> FirstTime(rest, seen', k - 1)
        ensures ids[k] == rest[k - 1]
      {
        FirstTimeTail(ids, seen, k);
      }
      if Tally(RepeatWeight(all), ids, seen) != 0 && (ids[0] !in seen || ResultsFor(all, ids[0]) == []) {
        var k: nat :| k < |rest| && ResultsFor(all, rest[k]) != [] && !FirstTime(rest, seen', k);
        assert ids[k + 1] == rest[k];
      }
    }
  }

  /** The counter is not a count of dropped messages: a repaired transcript loses none, yet repeated calls count. */
  lemma {:induction false} RepeatsOfRepaired(all: seq<ChatMessage>, ids: seq<string>, seen: set<string>)
    requires forall id | id in ids :: |ResultsFor(all, id)| == 1
    ensures Tally(RepeatWeight(all), ids, seen) + |FirstOccurrences(ids, seen)| == |ids|
  {
    if ids != [] {
      assert ids[0] in ids;
      RepeatsOfRepaired(all, ids[1..], seen + {ids[0]});
    }
  }

  lemma {:induction false} SomeResultIff(msgs: seq<ChatMessage>, id: string)
    ensures ResultsFor(msgs, id) != [] <==> exists k :: 0 <= k < |msgs| && IsResult(msgs[k], id)
  {
    if msgs != [] {
      SomeResultIff(msgs[1..], id);
      forall k | 0 < k < |msgs| ensures msgs[k] == msgs[1..][k - 1] {}
      if k :| 0 <= k < |msgs[1..]| && IsResult(msgs[1..][k], id) {
        assert IsResult(msgs[k + 1], id);
      }
    }
  }

  lemma {:induction false} ManyResultsIff(msgs: seq<ChatMessage>, id: string)
    ensures |ResultsFor(msgs, id)| >= 2
       <==> exists j, k :: 0 <= j < k < |msgs| && IsResult(msgs[j], id) && IsResult(msgs[k], id)
  {
    if msgs != [] {
      var rest := msgs[1..];
      ManyResultsIff(rest, id);
      SomeResultIff(rest, id);
      forall k | 0 < k < |msgs| ensures msgs[k] == rest[k - 1] {}
      if j, k :| 0 <= j < k < |rest| && IsResult(rest[j], id) && IsResult(rest[k], id) {
        assert IsResult(msgs[j + 1], id) && IsResult(msgs[k + 1], id);
      }
      if IsResult(msgs[0], id) {
        if k :| 0 <= k < |rest| && IsResult(rest[k], id) {
          assert IsResult(msgs[k + 1], id);
        }
      }
    }
  }

  /** Message `k` is a second or later result of a called id: repair drops it for good. */
  ghost predicate Superfluous(msgs: seq<ChatMessage>, k: int) {
    && 0 <= k < |msgs| && msgs[k].role.Tool? && msgs[k].toolCallId.Some?
    && msgs[k].toolCallId.value in Called(msgs)
    && exists j :: 0 <= j < k && IsResult(msgs[j], msgs[k].toolCallId.value)
  }

  ghost function DroppedResults(msgs: seq<ChatMessage>): set<int> {
    set k | 0 <= k < |msgs| && Superfluous(msgs, k)
  }

  lemma NoneDroppedIff(msgs: seq<ChatMessage>)
    ensures DroppedResults(msgs) == {} <==> forall id | id in Called(msgs) :: |ResultsFor(msgs, id)| <= 1
  {
    if DroppedResults(msgs) == {} {
      forall id | id in Called(msgs) ensures |ResultsFor(msgs, id)| <= 1 {
        ManyResultsIff(msgs, id);
        forall j, k | 0 <= j < k < |msgs| && IsResult(msgs[k], id) ensures !IsResult(msgs[j], id) {
          assert k !in DroppedResults(msgs);
        }
      }
    } else {
      var k :| k in DroppedResults(msgs);
      var id := msgs[k].toolCallId.value;
      assert IsResult(msgs[k], id);
      ManyResultsIff(msgs, id);
    }
  }

  /**
    When no id is called twice the counter stays at zero, however many results are dropped: it is the number
    of the dropped ones if and only if no called id has two results.
  */
  lemma DuplicatesUncounted(msgs: seq<ChatMessage>)
    requires Distinct(CalledIds(msgs))
    ensures ReportOf(msgs).droppedDuplicates == 0
    ensures ReportOf(msgs).droppedDuplicates == |DroppedResults(msgs)|
       <==> forall id | id in Called(msgs) :: |ResultsFor(msgs, id)| <= 1
  {
    RepeatTallyZero(msgs, CalledIds(msgs), {});
    NoneDroppedIff(msgs);
    if DroppedResults(msgs) != {} {
      var k :| k in DroppedResults(msgs);
    }
  }

  lemma {:induction false} FirstOccurrencesLength(ids: seq<string>, seen: set<string>)
    ensures |FirstOccurrences(ids, seen)| <= |ids|
    ensures |FirstOccurrences(ids, seen)| == |ids| <==> Distinct(ids) && forall id | id in ids :: id !in seen
  {
    if ids != [] {
      FirstOccurrencesLength(ids[1..], seen + {ids[0]});
      assert ids == [ids[0]] + ids[1..];
      if Distinct(ids) {
        forall id | id in ids[1..] ensures id != ids[0] {
          var k :| 0 <= k < |ids[1..]| && ids[1..][k] == id;
        }
        forall i, j | 0 <= i < j < |ids[1..]| ensures ids[1..][i] != ids[1..][j] {
          assert ids[1..][i] == ids[i + 1] && ids[1..][j] == ids[j + 1];
        }
      }
      if Distinct(ids[1..]) && ids[0] !in ids[1..] {
        forall i, j | 0 <= i < j < |ids| ensures ids[i] != ids[j] {
          assert ids[j] == ids[1..][j - 1];
          assert i > 0 ==> ids[i] == ids[1..][i - 1];
        }
      }
    }
  }

  /**
    On a repaired transcript, from which nothing is dropped, the counter is the number of repeated calls;
    it is right if and only if no id is called twice.
  */
  lemma SecondReportDuplicates(msgs: seq<ChatMessage>)
    ensures ReportOf(Repaired(msgs)).droppedDuplicates == |CalledIds(msgs)| - |ToolIds(Repaired(msgs))|
    ensures DroppedResults(Repaired(msgs)) == {}
    ensures ReportOf(Repaired(msgs)).droppedDuplicates == 0 <==> Distinct(CalledIds(msgs))
  {
    var out := Repaired(msgs);
    FirstOccurrencesLength(CalledIds(msgs), {});
    NoneDroppedIff(out);
    RepairKeepsReuse(msgs);
    RepairedResultsUnique(msgs);
    RepairEmitsOnePerCall(msgs);
    forall id | id in CalledIds(out) ensures |ResultsFor(out, id)| == 1 {
      FirstOccurrencesMember(CalledIds(msgs), {}, id);
      var k := ToolIdIndex(out, id);
      assert out[k].role.Tool?;
    }
    RepeatsOfRepaired(out, CalledIds(out), {});
  }
}
