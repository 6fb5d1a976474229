/** Where the streaming chunker breaks its buffer: ASCII text, where a byte index is a character index. */
module ChunkBreaks {
  import opened Prelude
  import opened Fences

  datatype BreakPreference = Paragraph | Newline | Sentence

  datatype ChunkingConfig = ChunkingConfig(minChars: nat, maxChars: nat, breakPreference: BreakPreference)

  // ---- Text without fences ----

  /** No three fence characters of one kind stand in a row. */
  ghost predicate NoFence(s: string) {
    forall i | 0 <= i < |s| - 2 && IsMarker(s[i]) :: s[i] == s[i + 1] ==> s[i] != s[i + 2]
  }

  lemma PlainSlice(s: string, from: nat, to: nat)
    requires from <= to <= |s| && NoFence(s)
    ensures NoFence(s[from..to])
  {
    var t := s[from..to];
    forall i | 0 <= i < |t| ensures t[i] == s[from + i] {}
    forall i | 0 <= i < |t| - 2 && IsMarker(t[i]) ensures t[i] == t[i + 1] ==> t[i] != t[i + 2] {
      assert s[from + i + 1] == t[i + 1] && s[from + i + 2] == t[i + 2];
    }
  }

  lemma ThreeInARow(s: string, c: char)
    requires MarkerRun(s, c) >= 3
    ensures |s| >= 3 && s[0] == c && s[1] == c && s[2] == c
  {
    assert MarkerRun(s[1..], c) >= 2;
    assert MarkerRun(s[1..][1..], c) >= 1;
  }

  lemma PlainLineOpensNothing(line: string)
    requires NoFence(line)
    ensures !IsFenceLine(line)
  {
    TrimStartIsSuffix(line);
    var trimmed := TrimStart(line);
    PlainSlice(line, |line| - |trimmed|, |line|);
    assert line[|line| - |trimmed|..] == line[|line| - |trimmed|..|line|];
    if trimmed != "" && MarkerRun(trimmed, trimmed[0]) >= 3 {
      ThreeInARow(trimmed, trimmed[0]);
    }
  }

  /** Text without three fence characters in a row has no fence. */
  lemma PlainHasNoSpans(text: string)
    requires NoFence(text)
    ensures FenceSpans(text) == []
  {
    SpansAreAParse(text);
    var spans := FenceSpans(text);
    if spans != [] {
      var s := spans[0];
      assert Opens(text, s);
      PlainSlice(text, s.start, LineEnd(text, s.start));
      PlainLineOpensNothing(s.openLine);
    }
  }

  // ---- Break finders ----

  function RFind(s: string, pattern: string): (r: Option<nat>)
    requires pattern != ""
    ensures r.Some? ==> r.value + |pattern| <= |s|
  {
    if |s| < |pattern| then None
    else if s[|s| - |pattern|..] == pattern then Some(|s| - |pattern|)
    else RFind(s[..|s| - 1], pattern)
  }

  function BreakBefore(buf: string, pattern: string, spans: seq<FenceSpan>, minChars: nat, i: nat): (r: Option<nat>)
    requires pattern != "" && i <= |buf|
    ensures r.Some? ==> minChars <= r.value && r.value + |pattern| <= i && IsSafeFenceBreak(spans, r.value)
    decreases i
  {
    if i <= minChars then None
    else match RFind(buf[..i], pattern)
      case None => None
      case Some(pos) =>
        if pos < minChars then None
        else if IsSafeFenceBreak(spans, pos) then Some(pos)
        else BreakBefore(buf, pattern, spans, minChars, pos)
  }

  /** The paragraph finder with pattern "\n\n" and the newline finder with pattern "\n". */
  method FindBreak(buf: string, pattern: string, spans: seq<FenceSpan>, minChars: nat) returns (r: Option<nat>)
    requires pattern != ""
    ensures r == BreakBefore(buf, pattern, spans, minChars, |buf|)
  {
    var i := |buf|;
    while i > minChars
      invariant 0 <= i <= |buf|
      invariant BreakBefore(buf, pattern, spans, minChars, i) == BreakBefore(buf, pattern, spans, minChars, |buf|)
    {
      match RFind(buf[..i], pattern)
      case None => return None;
      case Some(pos) =>
        if pos < minChars {
          return None;
        }
        if IsSafeFenceBreak(spans, pos) {
          return Some(pos);
        }
        i := pos;
    }
    return None;
  }

  predicate EndsSentence(buf: string, i: nat)
    requires i < |buf|
  {
    && (buf[i] == '.' || buf[i] == '!' || buf[i] == '?')
    && (i + 1 >= |buf| || IsWhitespace(buf[i + 1]))
  }

  /** The last sentence end among the first `n` characters. */
  function SentenceBreak(buf: string, spans: seq<FenceSpan>, minChars: nat, n: nat): (r: Option<nat>)
    requires n <= |buf|
    ensures r.Some? ==> minChars < r.value <= n && EndsSentence(buf, r.value - 1) && IsSafeFenceBreak(spans, r.value)
  {
    if n == 0 then None
    else if n - 1 >= minChars && EndsSentence(buf, n - 1) && IsSafeFenceBreak(spans, n) then Some(n)
    else SentenceBreak(buf, spans, minChars, n - 1)
  }

  method FindSentenceBreak(buf: string, spans: seq<FenceSpan>, minChars: nat) returns (last: Option<nat>)
    ensures last == SentenceBreak(buf, spans, minChars, |buf|)
  {
    last := None;
    var i := 0;
    while i < |buf|
      invariant i <= |buf|
      invariant last == SentenceBreak(buf, spans, minChars, i)
    {
      if i >= minChars && EndsSentence(buf, i) && IsSafeFenceBreak(spans, i + 1) {
        last := Some(i + 1);
      }
      i := i + 1;
    }
  }

  function OrElse(a: Option<nat>, b: Option<nat>): Option<nat> {
    if a.Some? then a else b
  }

  /** The preferred kind first, then the fallbacks, then a hard break at the window's end. */
  function Preferred(preference: BreakPreference, paragraph: Option<nat>, newline: Option<nat>, sentence: Option<nat>,
                     window: nat): nat
  {
    var choice := match preference
      case Paragraph => OrElse(paragraph, OrElse(newline, sentence))
      case Newline => OrElse(newline, sentence)
      case Sentence => sentence;
    if choice.Some? then choice.value else window
  }

  function Window(config: ChunkingConfig, buffer: string): string {
    buffer[..Min(|buffer|, config.maxChars)]
  }

  function PickBreak(config: ChunkingConfig, buffer: string): nat {
    var buf := Window(config, buffer);
    var spans := FenceSpans(buf);
    Preferred(config.breakPreference,
              BreakBefore(buf, "\n\n", spans, config.minChars, |buf|),
              BreakBefore(buf, "\n", spans, config.minChars, |buf|),
              SentenceBreak(buf, spans, config.minChars, |buf|),
              |buf|)
  }

  /** A lawful place to break `buf` for each preference, not within a fence. */
  ghost predicate BreakAt(kind: BreakPreference, buf: string, minChars: nat, p: nat) {
    && (forall s | s in FenceSpans(buf) :: p <= s.start || p >= s.end)
    && match kind
       case Paragraph => minChars <= p && OccursAt(buf, "\n\n", p)
       case Newline => minChars <= p && OccursAt(buf, "\n", p)
       case Sentence => minChars < p <= |buf| && buf[p - 1] in ".!?" && (p == |buf| || IsWhitespace(buf[p]))
  }

  ghost predicate LastBreak(kind: BreakPreference, buf: string, minChars: nat, r: Option<nat>) {
    match r
    case None => forall q: nat :: !BreakAt(kind, buf, minChars, q)
    case Some(p) => BreakAt(kind, buf, minChars, p) && forall q: nat | q > p :: !BreakAt(kind, buf, minChars, q)
  }

  lemma {:induction false} RFindMeaning(s: string, pattern: string)
    requires pattern != ""
    ensures match RFind(s, pattern)
      case None => forall q: nat :: !OccursAt(s, pattern, q)
      case Some(p) => OccursAt(s, pattern, p) && forall q: nat | q > p :: !OccursAt(s, pattern, q)
  {
    if |s| >= |pattern| {
      var last := |s| - |pattern|;
      if s[last..] == pattern {
        assert s[last..last + |pattern|] == s[last..];
      } else {
        var t := s[..|s| - 1];
        RFindMeaning(t, pattern);
        forall q: nat ensures OccursAt(s, pattern, q) == OccursAt(t, pattern, q) {
          if q < last {
            assert s[q..q + |pattern|] == t[q..q + |pattern|];
          } else if q == last {
            assert s[last..last + |pattern|] == s[last..];
          }
        }
      }
    }
  }

  lemma OccursInPrefix(buf: string, pattern: string, i: nat, q: nat)
    requires i <= |buf|
    ensures OccursAt(buf[..i], pattern, q) <==> OccursAt(buf, pattern, q) && q + |pattern| <= i
  {
    if q + |pattern| <= i {
      assert buf[..i][q..q + |pattern|] == buf[q..q + |pattern|];
    }
  }

  lemma RFindInPrefix(buf: string, pattern: string, i: nat)
    requires pattern != "" && i <= |buf|
    ensures match RFind(buf[..i], pattern)
      case None => forall q: nat | OccursAt(buf, pattern, q) :: q + |pattern| > i
      case Some(p) => OccursAt(buf, pattern, p) && forall q: nat | q > p && OccursAt(buf, pattern, q) :: q + |pattern| > i
  {
    RFindMeaning(buf[..i], pattern);
    forall q: nat ensures OccursAt(buf[..i], pattern, q) <==> OccursAt(buf, pattern, q) && q + |pattern| <= i {
      OccursInPrefix(buf, pattern, i, q);
    }
  }

  /** No fence begins with a line feed, so of two overlapping paragraph breaks both are safe or neither is. */
  lemma OverlapIsUnsafe(buf: string, pattern: string, pos: nat, q: nat)
    requires pattern == "\n\n" || pattern == "\n"
    requires OccursAt(buf, pattern, pos) && !IsSafeFenceBreak(FenceSpans(buf), pos)
    requires OccursAt(buf, pattern, q) && q < pos && q + |pattern| > pos
    ensures !IsSafeFenceBreak(FenceSpans(buf), q)
  {
    SpansAreAParse(buf);
    var spans := FenceSpans(buf);
    var s :| s in spans && s.start < pos < s.end;
    assert Opens(buf, s);
    FenceLineAppend(s.openLine, "");
    assert buf[q] == buf[q..q + |pattern|][0];
    assert buf[s.start] != '\n';
  }

  lemma {:induction false} SearchMeaning(buf: string, pattern: string, minChars: nat, i: nat)
    requires (pattern == "\n\n" || pattern == "\n") && i <= |buf|
    ensures var spans := FenceSpans(buf);
      match BreakBefore(buf, pattern, spans, minChars, i)
      case None => forall q: nat | q >= minChars && q + |pattern| <= i && OccursAt(buf, pattern, q) :: !IsSafeFenceBreak(spans, q)
      case Some(p) =>
        && OccursAt(buf, pattern, p)
        && forall q: nat | q > p && q + |pattern| <= i && OccursAt(buf, pattern, q) :: !IsSafeFenceBreak(spans, q)
    decreases i
  {
    RFindInPrefix(buf, pattern, i);
    var r := RFind(buf[..i], pattern);
    if i > minChars && r.Some? && r.value >= minChars && !IsSafeFenceBreak(FenceSpans(buf), r.value) {
      SearchMeaning(buf, pattern, minChars, r.value);
      forall q: nat | q < r.value && q + |pattern| > r.value && OccursAt(buf, pattern, q)
        ensures !IsSafeFenceBreak(FenceSpans(buf), q)
      {
        OverlapIsUnsafe(buf, pattern, r.value, q);
      }
    }
  }

  lemma ParagraphFindsLast(buf: string, minChars: nat)
    ensures LastBreak(Paragraph, buf, minChars, BreakBefore(buf, "\n\n", FenceSpans(buf), minChars, |buf|))
  {
    SearchMeaning(buf, "\n\n", minChars, |buf|);
  }

  lemma NewlineFindsLast(buf: string, minChars: nat)
    ensures LastBreak(Newline, buf, minChars, BreakBefore(buf, "\n", FenceSpans(buf), minChars, |buf|))
  {
    SearchMeaning(buf, "\n", minChars, |buf|);
  }

  lemma {:induction false} SentenceFindsLast(buf: string, minChars: nat, n: nat)
    requires n <= |buf| && forall q: nat | q > n :: !BreakAt(Sentence, buf, minChars, q)
    ensures LastBreak(Sentence, buf, minChars, SentenceBreak(buf, FenceSpans(buf), minChars, n))
  {
    if n > 0 && !(n - 1 >= minChars && EndsSentence(buf, n - 1) && IsSafeFenceBreak(FenceSpans(buf), n)) {
      assert !BreakAt(Sentence, buf, minChars, n);
      SentenceFindsLast(buf, minChars, n - 1);
    }
  }

  /** The kinds a preference tries, in order. */
  function Tried(preference: BreakPreference): seq<BreakPreference> {
    match preference
    case Paragraph => [Paragraph, Newline, Sentence]
    case Newline => [Newline, Sentence]
    case Sentence => [Sentence]
  }

  ghost predicate HasBreak(kind: BreakPreference, buf: string, minChars: nat) {
    exists q: nat :: BreakAt(kind, buf, minChars, q)
  }

  /** `idx` is the last break of the first kind that has one, or the end of the window if none has. */
  ghost predicate BestBreak(kinds: seq<BreakPreference>, buf: string, minChars: nat, idx: nat) {
    if kinds == [] then idx == |buf|
    else if HasBreak(kinds[0], buf, minChars) then LastBreak(kinds[0], buf, minChars, Some(idx))
    else BestBreak(kinds[1..], buf, minChars, idx)
  }

  /** One finder followed by whatever is tried after it. */
  lemma BestOrElse(kinds: seq<BreakPreference>, buf: string, minChars: nat, r: Option<nat>, idx: nat)
    requires kinds != [] && LastBreak(kinds[0], buf, minChars, r)
    requires r.None? ==> BestBreak(kinds[1..], buf, minChars, idx)
    ensures BestBreak(kinds, buf, minChars, if r.Some? then r.value else idx)
  {
  }

  lemma PreferredIsBest(preference: BreakPreference, buf: string, minChars: nat,
                        paragraph: Option<nat>, newline: Option<nat>, sentence: Option<nat>)
    requires LastBreak(Paragraph, buf, minChars, paragraph) && LastBreak(Newline, buf, minChars, newline)
    requires LastBreak(Sentence, buf, minChars, sentence)
    ensures BestBreak(Tried(preference), buf, minChars, Preferred(preference, paragraph, newline, sentence, |buf|))
  {
    BestOrElse([Sentence], buf, minChars, sentence, |buf|);
    var third := if sentence.Some? then sentence.value else |buf|;
    assert [Newline, Sentence][1..] == [Sentence];
    BestOrElse([Newline, Sentence], buf, minChars, newline, third);
    var second := if newline.Some? then newline.value else third;
    assert [Paragraph, Newline, Sentence][1..] == [Newline, Sentence];
    BestOrElse([Paragraph, Newline, Sentence], buf, minChars, paragraph, second);
  }

  /** The place picked is the best one in the window that lies in no fence. */
  lemma PickBreakIsBest(config: ChunkingConfig, buffer: string)
    ensures BestBreak(Tried(config.breakPreference), Window(config, buffer), config.minChars, PickBreak(config, buffer))
  {
    var min, buf := config.minChars, Window(config, buffer);
    var spans := FenceSpans(buf);
    ParagraphFindsLast(buf, min);
    NewlineFindsLast(buf, min);
    SentenceFindsLast(buf, min, |buf|);
    PreferredIsBest(config.breakPreference, buf, min, BreakBefore(buf, "\n\n", spans, min, |buf|),
                    BreakBefore(buf, "\n", spans, min, |buf|), SentenceBreak(buf, spans, min, |buf|));
  }

}
