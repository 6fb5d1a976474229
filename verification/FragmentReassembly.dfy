/** Reassembly of event payloads that arrive in fragments, any number of messages interleaved. */
module FragmentReassembly {
  import opened Prelude

  newtype Byte = x: int | 0 <= x < 256

  type Bytes = seq<Byte>

  /** A data frame; a header that is missing or not a number reads as `None`. */
  datatype Frame = Frame(messageId: string, sumHeader: Option<nat>, seqHeader: Option<nat>, payload: Bytes)

  type Slots = seq<Option<Bytes>>

  function Sum(f: Frame): nat {
    if f.sumHeader.Some? then f.sumHeader.value else 1
  }

  function Seq(f: Frame): nat {
    if f.seqHeader.Some? then f.seqHeader.value else 0
  }

  predicate Full(slots: Slots) {
    forall k | 0 <= k < |slots| :: slots[k].Some?
  }

  function Concat(parts: seq<Bytes>): Bytes {
    if parts == [] then [] else Concat(parts[..|parts| - 1]) + parts[|parts| - 1]
  }

  function Contents(slots: Slots): seq<Bytes>
    requires Full(slots)
  {
    seq(|slots|, k requires 0 <= k < |slots| => slots[k].value)
  }

  function EntryFor(cache: map<string, Slots>, f: Frame): Slots {
    var entry := if f.messageId in cache then cache[f.messageId] else seq(Sum(f), _ => None);
    if Seq(f) < |entry| then entry[Seq(f) := Some(f.payload)] else entry
  }

  /** One frame: the new cache, and the payload if a message is complete. */
  function Received(cache: map<string, Slots>, f: Frame): (map<string, Slots>, Option<Bytes>) {
    if Sum(f) <= 1 then (cache, Some(f.payload))
    else
      var entry := EntryFor(cache, f);
      if Full(entry) then (cache - {f.messageId}, Some(Concat(Contents(entry))))
      else (cache[f.messageId := entry], None)
  }

  class Reassembler {
    var cache: map<string, Slots>

    constructor ()
      ensures cache == map[]
    {
      cache := map[];
    }

    method AllPresent(entry: Slots) returns (full: bool)
      ensures full <==> Full(entry)
    {
      for k := 0 to |entry|
        invariant forall i | 0 <= i < k :: entry[i].Some?
      {
        if entry[k].None? { return false; }
      }
      return true;
    }

    method Combine(entry: Slots) returns (combined: Bytes)
      requires Full(entry)
      ensures combined == Concat(Contents(entry))
    {
      combined := [];
      for k := 0 to |entry|
        invariant combined == Concat(Contents(entry)[..k])
      {
        assert Contents(entry)[..k + 1][..k] == Contents(entry)[..k];
        combined := combined + entry[k].value;
      }
      assert Contents(entry)[..|entry|] == Contents(entry);
    }

    method Receive(f: Frame) returns (payload: Option<Bytes>)
      modifies this
      ensures (cache, payload) == Received(old(cache), f)
    {
      if Sum(f) <= 1 {
        return Some(f.payload);
      }
      var entry := if f.messageId in cache then cache[f.messageId] else seq(Sum(f), _ => None);
      if Seq(f) < |entry| {
        entry := entry[Seq(f) := Some(f.payload)];
      }
      var full := AllPresent(entry);
      if full {
        var combined := Combine(entry);
        cache := cache - {f.messageId};
        return Some(combined);
      }
      cache := cache[f.messageId := entry];
      return None;
    }
  }

  // ---- Runs ----

  function CacheAfter(frames: seq<Frame>): map<string, Slots> {
    if frames == [] then map[] else Received(CacheAfter(frames[..|frames| - 1]), frames[|frames| - 1]).0
  }

  /** What the k-th frame hands on. */
  function Dispatched(frames: seq<Frame>, k: nat): Option<Bytes>
    requires k < |frames|
  {
    Received(CacheAfter(frames[..k]), frames[k]).1
  }

  /** A frame is fragment `s` of message `id`. */
  predicate IsFragment(f: Frame, id: string, s: nat) {
    f.messageId == id && Seq(f) == s
  }

  ghost predicate Arrived(frames: seq<Frame>, id: string, s: nat) {
    exists k :: 0 <= k < |frames| && IsFragment(frames[k], id, s)
  }

  /** Every frame is a genuine fragment of one of the messages. */
  ghost predicate Genuine(messages: map<string, seq<Bytes>>, f: Frame) {
    && f.messageId in messages
    && Sum(f) == |messages[f.messageId]|
    && Seq(f) < Sum(f)
    && f.payload == messages[f.messageId][Seq(f)]
  }

  /** Genuine fragments, none of them twice. */
  ghost predicate Interleaving(messages: map<string, seq<Bytes>>, frames: seq<Frame>) {
    && (forall k | 0 <= k < |frames| :: Genuine(messages, frames[k]))
    && (forall i, j | 0 <= i < j < |frames| :: !IsFragment(frames[j], frames[i].messageId, Seq(frames[i])))
  }

  ghost predicate AllArrived(messages: map<string, seq<Bytes>>, frames: seq<Frame>, id: string)
    requires id in messages
  {
    forall s: nat | s < |messages[id]| :: Arrived(frames, id, s)
  }

  /** Every fragment of every message has arrived. */
  ghost predicate Complete(messages: map<string, seq<Bytes>>, frames: seq<Frame>) {
    forall id | id in messages :: messages[id] != [] && AllArrived(messages, frames, id)
  }

  // ---- The cache holds exactly the fragments of the unfinished messages ----

  ghost predicate SlotsMatch(messages: map<string, seq<Bytes>>, frames: seq<Frame>, id: string, slots: Slots)
    requires id in messages
  {
    && |slots| == |messages[id]|
    && forall s: nat | s < |slots| :: slots[s] == if Arrived(frames, id, s) then Some(messages[id][s]) else None
  }

  ghost predicate CacheEntry(messages: map<string, seq<Bytes>>, frames: seq<Frame>, cache: map<string, Slots>, id: string) {
    && (id in cache ==>
          id in messages && |messages[id]| > 1 && SlotsMatch(messages, frames, id, cache[id]) && !Full(cache[id]))
    && (id !in cache && id in messages && |messages[id]| > 1 ==>
          AllArrived(messages, frames, id) || forall s: nat :: !Arrived(frames, id, s))
  }

  ghost predicate CacheCorrect(messages: map<string, seq<Bytes>>, frames: seq<Frame>, cache: map<string, Slots>) {
    forall id: string :: CacheEntry(messages, frames, cache, id)
  }

  lemma ArrivedStep(frames: seq<Frame>, f: Frame, id: string, s: nat)
    ensures Arrived(frames + [f], id, s) <==> Arrived(frames, id, s) || IsFragment(f, id, s)
  {
    if Arrived(frames, id, s) {
      var k :| 0 <= k < |frames| && IsFragment(frames[k], id, s);
      assert (frames + [f])[k] == frames[k];
    }
    assert (frames + [f])[|frames|] == f;
  }

  lemma EntryMatches(messages: map<string, seq<Bytes>>, frames: seq<Frame>, cache: map<string, Slots>, f: Frame)
    requires CacheCorrect(messages, frames, cache) && Genuine(messages, f) && Sum(f) > 1
    requires !AllArrived(messages, frames, f.messageId)
    ensures SlotsMatch(messages, frames + [f], f.messageId, EntryFor(cache, f))
  {
    var id := f.messageId;
    assert CacheEntry(messages, frames, cache, id);
    var entry := EntryFor(cache, f);
    forall s: nat | s < |entry|
      ensures entry[s] == if Arrived(frames + [f], id, s) then Some(messages[id][s]) else None
    {
      ArrivedStep(frames, f, id, s);
    }
  }

  lemma FullIsAllArrived(messages: map<string, seq<Bytes>>, frames: seq<Frame>, id: string, slots: Slots)
    requires id in messages && SlotsMatch(messages, frames, id, slots)
    ensures Full(slots) <==> AllArrived(messages, frames, id)
    ensures Full(slots) ==> Contents(slots) == messages[id]
  {
    if Full(slots) {
      forall s: nat | s < |messages[id]| ensures Arrived(frames, id, s) {
        assert slots[s].Some?;
      }
    }
  }

  lemma OtherMessageUnaffected(messages: map<string, seq<Bytes>>, frames: seq<Frame>, f: Frame, id: string)
    requires f.messageId != id
    ensures forall s: nat :: Arrived(frames + [f], id, s) <==> Arrived(frames, id, s)
  {
    forall s: nat ensures Arrived(frames + [f], id, s) <==> Arrived(frames, id, s) {
      ArrivedStep(frames, f, id, s);
    }
  }

  lemma ReceiveKeepsCache(messages: map<string, seq<Bytes>>, frames: seq<Frame>, cache: map<string, Slots>, f: Frame)
    requires CacheCorrect(messages, frames, cache) && Genuine(messages, f)
    requires !AllArrived(messages, frames, f.messageId)
    ensures CacheCorrect(messages, frames + [f], Received(cache, f).0)
    ensures Received(cache, f).1 ==
            if AllArrived(messages, frames + [f], f.messageId) then Some(Concat(messages[f.messageId])) else None
  {
    var cache' := Received(cache, f).0;
    var me := f.messageId;
    if Sum(f) > 1 {
      EntryMatches(messages, frames, cache, f);
      FullIsAllArrived(messages, frames + [f], me, EntryFor(cache, f));
    } else {
      SingleFragment(messages, frames, f);
    }
    forall id: string ensures CacheEntry(messages, frames + [f], cache', id) {
      assert CacheEntry(messages, frames, cache, id);
      if id != me {
        OtherMessageUnaffected(messages, frames, f, id);
      } else {
        ArrivedStep(frames, f, me, Seq(f));
      }
    }
  }

  lemma SingleFragment(messages: map<string, seq<Bytes>>, frames: seq<Frame>, f: Frame)
    requires Genuine(messages, f) && Sum(f) == 1
    ensures AllArrived(messages, frames + [f], f.messageId) && Concat(messages[f.messageId]) == f.payload
  {
    ArrivedStep(frames, f, f.messageId, 0);
    var parts := messages[f.messageId];
    assert parts == [f.payload];
    assert Concat(parts[..0]) == [];
  }

  lemma ArrivesOnce(messages: map<string, seq<Bytes>>, frames: seq<Frame>, n: nat, j: nat)
    requires Interleaving(messages, frames) && n <= j < |frames|
    ensures Genuine(messages, frames[j]) && !Arrived(frames[..n], frames[j].messageId, Seq(frames[j]))
  {
    forall k | 0 <= k < n ensures !IsFragment(frames[..n][k], frames[j].messageId, Seq(frames[j])) {
      assert !IsFragment(frames[j], frames[k].messageId, Seq(frames[k]));
    }
  }

  lemma NotYetComplete(messages: map<string, seq<Bytes>>, frames: seq<Frame>, n: nat)
    requires Interleaving(messages, frames) && n < |frames|
    ensures frames[n].messageId in messages && !AllArrived(messages, frames[..n], frames[n].messageId)
  {
    ArrivesOnce(messages, frames, n, n);
  }

  lemma {:induction false} CacheIsCorrect(messages: map<string, seq<Bytes>>, frames: seq<Frame>, n: nat)
    requires Interleaving(messages, frames) && n <= |frames|
    ensures CacheCorrect(messages, frames[..n], CacheAfter(frames[..n]))
  {
    if n > 0 {
      CacheIsCorrect(messages, frames, n - 1);
      NotYetComplete(messages, frames, n - 1);
      assert frames[..n] == frames[..n - 1] + [frames[n - 1]];
      assert frames[..n][..n - 1] == frames[..n - 1];
      ReceiveKeepsCache(messages, frames[..n - 1], CacheAfter(frames[..n - 1]), frames[n - 1]);
    } else {
      forall id: string ensures CacheEntry(messages, frames[..0], CacheAfter(frames[..0]), id) {
      }
    }
  }

  ghost predicate LastOf(frames: seq<Frame>, n: nat)
    requires n < |frames|
  {
    forall j | n < j < |frames| :: frames[j].messageId != frames[n].messageId
  }

  lemma LastCompletes(messages: map<string, seq<Bytes>>, frames: seq<Frame>, n: nat)
    requires Interleaving(messages, frames) && Complete(messages, frames) && n < |frames|
    ensures frames[n].messageId in messages
    ensures AllArrived(messages, frames[..n + 1], frames[n].messageId) <==> LastOf(frames, n)
  {
    var id := frames[n].messageId;
    assert Genuine(messages, frames[n]);
    var sofar := frames[..n + 1];
    if LastOf(frames, n) {
      forall s: nat | s < |messages[id]| ensures Arrived(sofar, id, s) {
        assert Arrived(frames, id, s);
        var k :| 0 <= k < |frames| && IsFragment(frames[k], id, s);
        assert sofar[k] == frames[k];
      }
    } else {
      var j :| n < j < |frames| && frames[j].messageId == id;
      ArrivesOnce(messages, frames, n + 1, j);
    }
  }

  /** A frame hands on a payload exactly when it is the last of its message, and then the whole message in order. */
  lemma DispatchedAtLastArrival(messages: map<string, seq<Bytes>>, frames: seq<Frame>, n: nat)
    requires Interleaving(messages, frames) && Complete(messages, frames) && n < |frames|
    ensures Genuine(messages, frames[n])
    ensures Dispatched(frames, n) ==
            if LastOf(frames, n) then Some(Concat(messages[frames[n].messageId])) else None
  {
    CacheIsCorrect(messages, frames, n);
    NotYetComplete(messages, frames, n);
    assert frames[..n + 1] == frames[..n] + [frames[n]];
    ReceiveKeepsCache(messages, frames[..n], CacheAfter(frames[..n]), frames[n]);
    LastCompletes(messages, frames, n);
  }

  lemma {:induction false} LastArrival(frames: seq<Frame>, k: nat) returns (n: nat)
    requires k < |frames|
    ensures n < |frames| && frames[n].messageId == frames[k].messageId && LastOf(frames, n)
    decreases |frames| - k
  {
    if j :| k < j < |frames| && frames[j].messageId == frames[k].messageId {
      n := LastArrival(frames, j);
    } else {
      n := k;
    }
  }

  /** Every message is handed on exactly once. */
  lemma DispatchedExactlyOnce(messages: map<string, seq<Bytes>>, frames: seq<Frame>, id: string) returns (n: nat)
    requires Interleaving(messages, frames) && Complete(messages, frames) && id in messages
    ensures n < |frames| && frames[n].messageId == id && Dispatched(frames, n) == Some(Concat(messages[id]))
    ensures forall k | 0 <= k < |frames| && k != n && frames[k].messageId == id :: Dispatched(frames, k) == None
  {
    assert Arrived(frames, id, 0);
    var k :| 0 <= k < |frames| && IsFragment(frames[k], id, 0);
    n := LastArrival(frames, k);
    DispatchedAtLastArrival(messages, frames, n);
    forall k | 0 <= k < |frames| && k != n && frames[k].messageId == id ensures Dispatched(frames, k) == None {
      DispatchedAtLastArrival(messages, frames, k);
    }
  }

  /** When everything has arrived, nothing is left in the cache. */
  lemma CacheEndsEmpty(messages: map<string, seq<Bytes>>, frames: seq<Frame>)
    requires Interleaving(messages, frames) && Complete(messages, frames)
    ensures CacheAfter(frames) == map[]
  {
    CacheIsCorrect(messages, frames, |frames|);
    assert frames[..|frames|] == frames;
    forall id: string ensures id !in CacheAfter(frames) {
      assert CacheEntry(messages, frames, CacheAfter(frames), id);
      if id in CacheAfter(frames) {
        FullIsAllArrived(messages, frames, id, CacheAfter(frames)[id]);
      }
    }
  }

  // ---- Any frames whatever: repeated, contradictory, or past the end ----

  lemma {:induction false} ConcatAppend(a: seq<Bytes>, b: seq<Bytes>)
    ensures Concat(a + b) == Concat(a) + Concat(b)
    decreases |b|
  {
    if b == [] {
      assert a + b == a;
    } else {
      var last := |b| - 1;
      assert (a + b)[..|a + b| - 1] == a + b[..last];
      ConcatAppend(a, b[..last]);
      assert Concat(a) + Concat(b[..last]) + b[last] == Concat(a) + (Concat(b[..last]) + b[last]);
    }
  }

  /** Concatenation keeps each part and their order. */
  lemma ConcatMeaning(a: seq<Bytes>, part: Bytes, b: seq<Bytes>)
    ensures Concat(a + [part] + b) == Concat(a) + part + Concat(b)
  {
    assert [part][..0] == [];
    ConcatAppend(a, [part]);
    ConcatAppend(a + [part], b);
  }

  /** The fragments of a message that came since it was last handed on. */
  ghost function Waiting(frames: seq<Frame>, id: string): seq<Frame> {
    if frames == [] then []
    else
      var init, f := frames[..|frames| - 1], frames[|frames| - 1];
      if f.messageId != id || Sum(f) <= 1 then Waiting(init, id)
      else if Received(CacheAfter(init), f).1.Some? then []
      else Waiting(init, id) + [f]
  }

  /** `slot` is what the last of the fragments for place `s` brought, or nothing if there is none. */
  ghost predicate LastFor(waiting: seq<Frame>, s: nat, slot: Option<Bytes>) {
    match slot
    case None => forall k | 0 <= k < |waiting| :: Seq(waiting[k]) != s
    case Some(p) => exists k :: 0 <= k < |waiting| && Seq(waiting[k]) == s && waiting[k].payload == p
                         && forall j | k < j < |waiting| :: Seq(waiting[j]) != s
  }

  /** As many places as the first fragment announced, each with what came last for it. */
  ghost predicate Holds(waiting: seq<Frame>, slots: Slots) {
    && waiting != [] && |slots| == Sum(waiting[0])
    && forall s | 0 <= s < |slots| :: LastFor(waiting, s, slots[s])
  }

  lemma LastForThen(waiting: seq<Frame>, s: nat, slot: Option<Bytes>, f: Frame)
    requires LastFor(waiting, s, slot)
    ensures LastFor(waiting + [f], s, if Seq(f) == s then Some(f.payload) else slot)
  {
    var more := waiting + [f];
    assert forall k | 0 <= k < |waiting| :: more[k] == waiting[k];
    assert more[|waiting|] == f;
    if slot.Some? && Seq(f) != s {
      var k :| 0 <= k < |waiting| && Seq(waiting[k]) == s && waiting[k].payload == slot.value
        && forall j | k < j < |waiting| :: Seq(waiting[j]) != s;
      assert Seq(more[k]) == s && more[k].payload == slot.value;
    }
  }

  /** The entry a frame makes holds what waited and the frame. */
  lemma EntryHolds(cache: map<string, Slots>, waiting: seq<Frame>, f: Frame)
    requires if f.messageId in cache then Holds(waiting, cache[f.messageId]) else waiting == []
    ensures Holds(waiting + [f], EntryFor(cache, f))
  {
    var entry := EntryFor(cache, f);
    assert waiting == [] ==> waiting + [f] == [f];
    forall s | 0 <= s < |entry| ensures LastFor(waiting + [f], s, entry[s]) {
      LastForThen(waiting, s, if f.messageId in cache then cache[f.messageId][s] else None, f);
    }
  }

  /** The cache holds a message exactly while fragments of it wait, and then what they brought. */
  lemma {:induction false} CacheMeaning(frames: seq<Frame>, id: string)
    ensures
      var cache, waiting := CacheAfter(frames), Waiting(frames, id);
      if id in cache then Holds(waiting, cache[id]) else waiting == []
  {
    if frames != [] {
      var init, f := frames[..|frames| - 1], frames[|frames| - 1];
      CacheMeaning(init, id);
      if f.messageId == id && Sum(f) > 1 {
        EntryHolds(CacheAfter(init), Waiting(init, id), f);
      }
    }
  }

  ghost predicate HasFragment(waiting: seq<Frame>, s: nat) {
    exists k :: 0 <= k < |waiting| && Seq(waiting[k]) == s
  }

  /** Every place the first fragment announced has a fragment. */
  ghost predicate NothingMissing(waiting: seq<Frame>)
    requires waiting != []
  {
    forall s: nat | s < Sum(waiting[0]) :: HasFragment(waiting, s)
  }

  /**
    What comes of a frame after any others. A frame that announces one part, or announces nothing, is handed on as it
    is. Any other is handed on if and only if no place is missing any more, and then as the concatenation, in order of
    their places, of what came last for each.
  */
  lemma DispatchMeaning(frames: seq<Frame>, f: Frame) returns (slots: Slots)
    ensures
      var payload, waiting := Received(CacheAfter(frames), f).1, Waiting(frames, f.messageId) + [f];
      if f.sumHeader.None? || f.sumHeader.value <= 1 then payload == Some(f.payload)
      else
        && Holds(waiting, slots)
        && (payload.Some? <==> NothingMissing(waiting))
        && (payload.Some? ==> Full(slots) && payload == Some(Concat(Contents(slots))))
  {
    slots := EntryFor(CacheAfter(frames), f);
    if Sum(f) > 1 {
      CacheMeaning(frames, f.messageId);
      EntryHolds(CacheAfter(frames), Waiting(frames, f.messageId), f);
      FullIff(Waiting(frames, f.messageId) + [f], slots);
    }
  }

  lemma FullIff(waiting: seq<Frame>, slots: Slots)
    requires Holds(waiting, slots)
    ensures Full(slots) <==> NothingMissing(waiting)
  {
    forall s: nat | s < |slots| ensures slots[s].Some? <==> HasFragment(waiting, s) {
      assert LastFor(waiting, s, slots[s]);
    }
    if NothingMissing(waiting) {
      forall s | 0 <= s < |slots| ensures slots[s].Some? {
        assert HasFragment(waiting, s);
      }
    }
  }

  /** A frame without a sum header is a message by itself, and one without a sequence header is its first fragment. */
  lemma AbsentHeaders(cache: map<string, Slots>, f: Frame)
    ensures f.sumHeader.None? ==> Received(cache, f) == (cache, Some(f.payload))
    ensures f.seqHeader.None? ==> Received(cache, f) == Received(cache, f.(seqHeader := Some(0)))
  {
  }
}
