/** Echo detection: a bounded deque of sent texts and a set that answers lookups. */
module EchoDetect {
  import opened Prelude

  /** Lower-casing and whitespace collapsing, left abstract. */
  type Normalizer = string -> string

  datatype Tracker = Tracker(recent: seq<string>, index: set<string>, capacity: nat)

  function NormKey(normalize: Normalizer, text: string): string {
    "~:" + normalize(text)
  }

  function Without(s: seq<string>, key: string): seq<string> {
    if s == [] then []
    else Without(s[..|s| - 1], key) + if s[|s| - 1] == key then [] else [s[|s| - 1]]
  }

  function InsertEntry(t: Tracker, key: string): Tracker {
    if key in t.index then t
    else
      var evicted :=
        if |t.recent| >= t.capacity && t.recent != []
        then t.(recent := t.recent[1..], index := t.index - {t.recent[0]})
        else t;
      evicted.(recent := evicted.recent + [key], index := evicted.index + {key})
  }

  function Remember(normalize: Normalizer, t: Tracker, text: string): Tracker {
    if text in t.index then t else InsertEntry(InsertEntry(t, text), NormKey(normalize, text))
  }

  function Consume(t: Tracker, key: string): Tracker {
    if key in t.index then t.(index := t.index - {key}, recent := Without(t.recent, key)) else t
  }

  predicate Knows(normalize: Normalizer, t: Tracker, text: string) {
    text in t.index || NormKey(normalize, text) in t.index
  }

  function Has(normalize: Normalizer, t: Tracker, text: string): (Tracker, bool) {
    (Consume(Consume(t, text), NormKey(normalize, text)), Knows(normalize, t, text))
  }

  function Forget(normalize: Normalizer, t: Tracker, text: string): Tracker {
    t.(index := t.index - {text} - {NormKey(normalize, text)})
  }

  class EchoTracker {
    const normalize: Normalizer
    const capacity: nat
    var recent: seq<string>
    var index: set<string>

    function State(): Tracker
      reads this
    {
      Tracker(recent, index, capacity)
    }

    constructor (normalize: Normalizer, capacity: nat)
      ensures this.normalize == normalize && State() == Tracker([], {}, capacity)
    {
      this.normalize, this.capacity := normalize, capacity;
      recent, index := [], {};
    }

    method Insert(key: string)
      modifies this
      ensures State() == InsertEntry(old(State()), key)
    {
      if key in index { return; }
      if |recent| >= capacity && recent != [] {
        index := index - {recent[0]};
        recent := recent[1..];
      }
      index := index + {key};
      recent := recent + [key];
    }

    method RememberText(text: string)
      modifies this
      ensures State() == Remember(normalize, old(State()), text)
    {
      if text in index { return; }
      Insert(text);
      Insert(NormKey(normalize, text));
    }

    /** Removes every occurrence of the key from the deque. */
    method Retain(key: string)
      modifies this`recent
      ensures recent == Without(old(recent), key)
    {
      var kept: seq<string> := [];
      for i := 0 to |recent|
        invariant recent == old(recent) && kept == Without(recent[..i], key)
      {
        assert recent[..i + 1][..i] == recent[..i];
        if recent[i] != key { kept := kept + [recent[i]]; }
      }
      assert recent[..|recent|] == recent;
      recent := kept;
    }

    method HasText(text: string) returns (found: bool)
      modifies this
      ensures (State(), found) == Has(normalize, old(State()), text)
    {
      var nk := NormKey(normalize, text);
      if text in index {
        index := index - {text};
        Retain(text);
        if nk in index {
          index := index - {nk};
          Retain(nk);
        }
        return true;
      }
      if nk in index {
        index := index - {nk};
        Retain(nk);
        return true;
      }
      return false;
    }

    method ForgetText(text: string)
      modifies this
      ensures State() == Forget(normalize, old(State()), text)
    {
      index := index - {text};
      index := index - {NormKey(normalize, text)};
    }
  }

  // ---- Runs ----

  datatype Op = Send(text: string) | Receive(text: string) | Drop(text: string)

  function Apply(normalize: Normalizer, t: Tracker, op: Op): Tracker {
    match op
    case Send(text) => Remember(normalize, t, text)
    case Receive(text) => Has(normalize, t, text).0
    case Drop(text) => Forget(normalize, t, text)
  }

  function After(normalize: Normalizer, capacity: nat, ops: seq<Op>): Tracker {
    if ops == [] then Tracker([], {}, capacity)
    else Apply(normalize, After(normalize, capacity, ops[..|ops| - 1]), ops[|ops| - 1])
  }

  /** In every run: the index lies within the deque, and the deque within its bound. */
  ghost predicate Bounded(t: Tracker) {
    (forall key | key in t.index :: key in t.recent) && |t.recent| <= Max(1, t.capacity)
  }

  /** In runs without forgetting: the two agree exactly. */
  ghost predicate Agrees(t: Tracker) {
    (forall key :: key in t.index <==> key in t.recent) && Distinct(t.recent)
  }

  lemma {:induction false} WithoutMember(s: seq<string>, key: string, x: string)
    ensures x in Without(s, key) <==> x in s && x != key
    ensures |Without(s, key)| <= |s|
  {
    if s != [] {
      WithoutMember(s[..|s| - 1], key, x);
      assert s == s[..|s| - 1] + [s[|s| - 1]];
    }
  }

  lemma {:induction false} WithoutDistinct(s: seq<string>, key: string)
    requires Distinct(s)
    ensures Distinct(Without(s, key))
  {
    if s != [] {
      var last := |s| - 1;
      WithoutDistinct(s[..last], key);
      WithoutMember(s[..last], key, s[last]);
    }
  }

  lemma InsertKeeps(t: Tracker, key: string)
    ensures Bounded(t) ==> Bounded(InsertEntry(t, key))
    ensures Agrees(t) ==> Agrees(InsertEntry(t, key))
  {
    if key !in t.index && |t.recent| >= t.capacity && t.recent != [] {
      assert t.recent == [t.recent[0]] + t.recent[1..];
    }
  }

  lemma ConsumeKeeps(t: Tracker, key: string)
    ensures Bounded(t) ==> Bounded(Consume(t, key))
    ensures Agrees(t) ==> Agrees(Consume(t, key))
  {
    if key in t.index {
      forall x ensures (x in Without(t.recent, key) <==> x in t.recent && x != key) && |Without(t.recent, key)| <= |t.recent| {
        WithoutMember(t.recent, key, x);
      }
      if Agrees(t) {
        WithoutDistinct(t.recent, key);
      }
    }
  }

  lemma StepKeeps(normalize: Normalizer, t: Tracker, op: Op)
    ensures Bounded(t) ==> Bounded(Apply(normalize, t, op))
    ensures Agrees(t) && !op.Drop? ==> Agrees(Apply(normalize, t, op))
    ensures Apply(normalize, t, op).capacity == t.capacity
  {
    match op
    case Send(text) =>
      InsertKeeps(t, text);
      InsertKeeps(InsertEntry(t, text), NormKey(normalize, text));
    case Receive(text) =>
      ConsumeKeeps(t, text);
      ConsumeKeeps(Consume(t, text), NormKey(normalize, text));
    case Drop(text) =>
  }

  lemma {:induction false} IndexWithinDeque(normalize: Normalizer, capacity: nat, ops: seq<Op>)
    ensures Bounded(After(normalize, capacity, ops)) && After(normalize, capacity, ops).capacity == capacity
  {
    if ops != [] {
      IndexWithinDeque(normalize, capacity, ops[..|ops| - 1]);
      StepKeeps(normalize, After(normalize, capacity, ops[..|ops| - 1]), ops[|ops| - 1]);
    }
  }

  lemma {:induction false} IndexAgreesWithDeque(normalize: Normalizer, capacity: nat, ops: seq<Op>)
    requires forall k | 0 <= k < |ops| :: !ops[k].Drop?
    ensures Agrees(After(normalize, capacity, ops))
  {
    if ops != [] {
      IndexAgreesWithDeque(normalize, capacity, ops[..|ops| - 1]);
      StepKeeps(normalize, After(normalize, capacity, ops[..|ops| - 1]), ops[|ops| - 1]);
    }
  }

  /** An echo is reported once: asking again right away says no. */
  lemma EchoConsumed(normalize: Normalizer, t: Tracker, text: string)
    ensures !Has(normalize, Has(normalize, t, text).0, text).1
  {
  }

  /** Keeps an entry unless it is one of `removed`. */
  function KeepUnless(removed: set<string>): string -> seq<string> {
    (x: string) => if x in removed then [] else [x]
  }

  lemma {:induction false} WithoutOneMore(s: seq<string>, removed: set<string>, key: string)
    ensures Without(FlatMap(KeepUnless(removed), s), key) == FlatMap(KeepUnless(removed + {key}), s)
  {
    if s != [] {
      var last := |s| - 1;
      var x, keep, keep' := s[last], KeepUnless(removed), KeepUnless(removed + {key});
      assert s == s[..last] + [x];
      WithoutOneMore(s[..last], removed, key);
      FlatMapAppend(keep, s[..last], [x]);
      FlatMapAppend(keep', s[..last], [x]);
      FlatMapOne(keep, x);
      FlatMapOne(keep', x);
      var kept := FlatMap(keep, s[..last]);
      if x !in removed {
        assert (kept + [x])[..|kept|] == kept;
      } else {
        assert kept + [] == kept;
      }
    }
  }

  lemma {:induction false} KeepAll(s: seq<string>)
    ensures FlatMap(KeepUnless({}), s) == s
  {
    if s != [] {
      KeepAll(s[1..]);
      assert KeepUnless({})(s[0]) == [s[0]];
    }
  }

  lemma ConsumeMeaning(t: Tracker, removed: set<string>, key: string, s: seq<string>)
    requires t.recent == FlatMap(KeepUnless(removed), s)
    ensures
      var more := if key in t.index then removed + {key} else removed;
      Consume(t, key).recent == FlatMap(KeepUnless(more), s)
  {
    WithoutOneMore(s, removed, key);
  }

  /**
    A lookup knows a text by itself or by its normal form. It takes both keys from the set, as forgetting does, and
    every entry of those that were in the set from the deque.
  */
  lemma LookupMeaning(normalize: Normalizer, t: Tracker, text: string)
    ensures
      var keys := {text, "~:" + normalize(text)};
      var (after, known) := Has(normalize, t, text);
      && (known <==> keys * t.index != {})
      && after.index == t.index - keys && Forget(normalize, t, text) == t.(index := t.index - keys)
      && after.recent == FlatMap(KeepUnless(keys * t.index), t.recent)
  {
    var nk := NormKey(normalize, text);
    var keys := {text, nk};
    KeepAll(t.recent);
    ConsumeMeaning(t, {}, text, t.recent);
    var first := if text in t.index then {text} else {};
    assert (if text in t.index then {} + {text} else {}) == first;
    ConsumeMeaning(Consume(t, text), first, nk, t.recent);
    assert keys * t.index == if nk in Consume(t, text).index then first + {nk} else first;
    if text in t.index { assert text in keys * t.index; }
    if nk in t.index { assert nk in keys * t.index; }
  }

  /** One key goes in at the end, and the oldest entry out if there was no room. */
  ghost predicate Admitted(before: seq<string>, after: seq<string>, capacity: nat, key: string) {
    after == (if |before| >= capacity && before != [] then before[1..] else before) + [key]
  }

  /** A text that is not in the set is put in the deque, and its normal form behind it unless that is in the set. */
  lemma RememberMeaning(normalize: Normalizer, t: Tracker, text: string)
    requires text !in t.index
    ensures
      var nk, after := "~:" + normalize(text), Remember(normalize, t, text);
      var lost := if |t.recent| >= t.capacity && t.recent != [] then {t.recent[0]} else {};
      exists first ::
        && Admitted(t.recent, first, t.capacity, text)
        && if nk == text || nk in t.index - lost then after == t.(recent := first, index := t.index - lost + {text})
           else Admitted(first, after.recent, t.capacity, nk)
                && after.index == t.index - lost + {text} - (if |first| >= t.capacity then {first[0]} else {}) + {nk}
  {
    var first := InsertEntry(t, text).recent;
    assert Admitted(t.recent, first, t.capacity, text);
  }

  /**
    After a text is remembered, a text that normalizes alike is recognised if and only if remembering
    did something, or it was recognisable anyway. It does nothing while the exact text is still indexed,
    even if a lookup has used up the key of its normal form.
  */
  lemma RememberedIsKnownIff(normalize: Normalizer, t: Tracker, text: string, heard: string)
    requires Bounded(t) && normalize(heard) == normalize(text)
    ensures Knows(normalize, Remember(normalize, t, text), heard)
       <==> text !in t.index || heard in t.index || NormKey(normalize, text) in t.index
  {
  }

  /** Two texts with one normal form, different from each other and from the key of that form. */
  ghost predicate Variants(normalize: Normalizer, a: string, b: string) {
    && normalize(a) == normalize(b) && a != b
    && a != NormKey(normalize, a) && b != NormKey(normalize, a)
  }

  /** Sent, heard in another spelling, and sent again: the second echo in that spelling is not recognised. */
  lemma SecondEchoMissed(normalize: Normalizer, capacity: nat, a: string, b: string)
    requires Variants(normalize, a, b) && capacity >= 2
    ensures
      var t1 := After(normalize, capacity, [Send(a)]);
      var t3 := After(normalize, capacity, [Send(a), Receive(b), Send(a)]);
      Knows(normalize, t1, b) && !Knows(normalize, t3, b)
  {
    var nk := NormKey(normalize, a);
    var ops := [Send(a), Receive(b), Send(a)];
    assert ops[..2] == [Send(a), Receive(b)] && ops[..2][..1] == [Send(a)] && [Send(a)][..0] == [];
    var t1 := After(normalize, capacity, [Send(a)]);
    var t0 := Tracker([], {}, capacity);
    assert After(normalize, capacity, []) == t0;
    assert t1 == Remember(normalize, t0, a);
    assert InsertEntry(t0, a) == Tracker([a], {a}, capacity);
    assert t1 == Tracker([a, nk], {a, nk}, capacity);
    var t2 := After(normalize, capacity, ops[..2]);
    assert t2.index == {a};
    assert After(normalize, capacity, ops) == t2;
  }

  // ---- Forgetting ----

  /** Forgetting keeps the set and the deque in agreement if and only if there was nothing to forget. */
  lemma ForgetAgreesIff(normalize: Normalizer, t: Tracker, text: string)
    requires Agrees(t)
    ensures Agrees(Forget(normalize, t, text)) <==> text !in t.index && NormKey(normalize, text) !in t.index
  {
    var t' := Forget(normalize, t, text);
    if text !in t.index && NormKey(normalize, text) !in t.index {
      assert t'.index == t.index;
    } else {
      var key := if text in t.index then text else NormKey(normalize, text);
      assert key in t'.recent && key !in t'.index;
    }
  }

  /** A new key evicts, from the set too, one that the deque still holds if and only if the front has a duplicate. */
  lemma EvictionLosesLiveKeyIff(t: Tracker, key: string)
    requires t.recent != [] && |t.recent| >= t.capacity && t.recent[0] in t.index && key !in t.index
    ensures
      var t' := InsertEntry(t, key);
      (t.recent[0] in t'.recent && t.recent[0] !in t'.index) <==> t.recent[0] in t.recent[1..]
  {
    var front := t.recent[0];
    assert InsertEntry(t, key).recent == t.recent[1..] + [key];
    assert InsertEntry(t, key).index == t.index - {front} + {key};
  }

  /**
    In a run: a text is sent, forgotten and sent again, so the deque holds its keys twice; the next text
    evicts the old entries and the live keys with them. The text was among the last two sent and is unknown.
  */
  lemma ForgottenTwinEvicts(normalize: Normalizer, a: string, other: string)
    requires a != NormKey(normalize, a) && other != NormKey(normalize, other)
    requires other != a && other != NormKey(normalize, a) && NormKey(normalize, other) != a
    requires normalize(other) != normalize(a)
    ensures
      var ops := [Send(a), Drop(a), Send(a), Send(other)];
      var before, t := After(normalize, 4, ops[..3]), After(normalize, 4, ops);
      Knows(normalize, before, a) && a in t.recent && !Knows(normalize, t, a)
  {
    var nk, ok := NormKey(normalize, a), NormKey(normalize, other);
    var ops := [Send(a), Drop(a), Send(a), Send(other)];
    assert ops[..3] == [Send(a), Drop(a), Send(a)] && ops[..3][..2] == [Send(a), Drop(a)];
    assert ops[..3][..2][..1] == [Send(a)] && [Send(a)][..0] == [];
    assert After(normalize, 4, [Send(a)]) == Tracker([a, nk], {a, nk}, 4);
    assert After(normalize, 4, ops[..3][..2]) == Tracker([a, nk], {}, 4);
    var before := After(normalize, 4, ops[..3]);
    assert before == Tracker([a, nk, a, nk], {a, nk}, 4);
    assert nk != ok by { assert nk[2..] == normalize(a) && ok[2..] == normalize(other); }
    var t1 := InsertEntry(before, other);
    assert t1 == Tracker([nk, a, nk, other], {nk, other}, 4);
    var t2 := InsertEntry(t1, ok);
    assert t2 == Tracker([a, nk, other, ok], {other, ok}, 4);
  }
}
