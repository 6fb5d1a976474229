/** A text as chunks with gaps between them, and with closed and reopened fences put in. */
module Weaving {
  import opened Prelude
  import opened Fences

  // ---- Chunks and gaps ----

  /** The chunks stand in the text one after another, with nothing but whitespace before, between and behind them. */
  ghost predicate Gapped(text: string, chunks: seq<string>)
    decreases |chunks|
  {
    if chunks == [] then Blank(text)
    else exists gap, rest :: Blank(gap) && Gapped(rest, chunks[1..]) && text == gap + chunks[0] + rest
  }

  lemma GapThen(gap: string, chunk: string, rest: string, chunks: seq<string>)
    requires Blank(gap) && Gapped(rest, chunks)
    ensures Gapped(gap + chunk + rest, [chunk] + chunks)
  {
    assert ([chunk] + chunks)[1..] == chunks;
  }

  lemma BlankBefore(front: string, text: string, chunks: seq<string>)
    requires Blank(front) && Gapped(text, chunks)
    ensures Gapped(front + text, chunks)
  {
    if chunks != [] {
      var gap, rest :| Blank(gap) && Gapped(rest, chunks[1..]) && text == gap + chunks[0] + rest;
      GapThen(front + gap, chunks[0], rest, chunks[1..]);
      assert front + text == front + gap + chunks[0] + rest;
      assert chunks == [chunks[0]] + chunks[1..];
    }
  }

  lemma {:induction false} GappedAppend(a: string, b: string, ca: seq<string>, cb: seq<string>)
    requires Gapped(a, ca) && Gapped(b, cb)
    ensures Gapped(a + b, ca + cb)
    decreases |ca|
  {
    if ca == [] {
      assert ca + cb == cb;
      BlankBefore(a, b, cb);
    } else {
      var gap, rest :| Blank(gap) && Gapped(rest, ca[1..]) && a == gap + ca[0] + rest;
      GappedAppend(rest, b, ca[1..], cb);
      GapThen(gap, ca[0], rest + b, ca[1..] + cb);
      assert a + b == gap + ca[0] + (rest + b);
      assert ca + cb == [ca[0]] + (ca[1..] + cb);
    }
  }

  lemma BlankBehind(text: string, chunks: seq<string>, tail: string)
    requires Gapped(text, chunks) && Blank(tail)
    ensures Gapped(text + tail, chunks)
  {
    GappedAppend(text, tail, chunks, []);
    assert chunks + [] == chunks;
  }

  /** Trimmed text begins and ends with a visible character. */
  ghost predicate Tight(s: string) {
    s != "" && !IsWhitespace(s[0]) && !IsWhitespace(s[|s| - 1])
  }

  lemma {:induction false} TrimEndGap(s: string)
    ensures |TrimEnd(s)| <= |s| && TrimEnd(s) == s[..|TrimEnd(s)|] && Blank(s[|TrimEnd(s)|..])
    ensures TrimEnd(s) != "" ==> !IsWhitespace(TrimEnd(s)[|TrimEnd(s)| - 1])
  {
    if s != [] && IsWhitespace(s[|s| - 1]) {
      var init := s[..|s| - 1];
      TrimEndGap(init);
      assert s[|TrimEnd(s)|..] == init[|TrimEnd(s)|..] + [s[|s| - 1]];
    }
  }

  lemma TrimmedPlace(s: string) returns (g: nat)
    ensures
      var n := |Trim(s)|;
      g + n <= |s| && s[g..g + n] == Trim(s) && Blank(s[..g]) && Blank(s[g + n..])
    ensures Trim(s) != "" ==> Tight(Trim(s))
  {
    TrimStartIsSuffix(s);
    var t := TrimStart(s);
    TrimEndGap(t);
    g := |s| - |t|;
    var n := |Trim(s)|;
    assert s[g..] == t;
    assert s[g..g + n] == t[..n] && s[g + n..] == t[n..];
  }

  /** What trimming leaves of a text: nothing of a blank one, and of another all between its first and last visible character. */
  lemma TrimMeaning(s: string)
    ensures Trim(s) == "" <==> Blank(s)
    ensures Trim(s) != "" ==> Tight(Trim(s)) && Gapped(s, [Trim(s)])
    ensures |Trim(s)| <= |s|
  {
    var g := TrimmedPlace(s);
    assert s == s[..g] + Trim(s) + s[g + |Trim(s)|..];
    if Trim(s) != "" {
      assert s[g] == Trim(s)[0];
      GapThen(s[..g], Trim(s), s[g + |Trim(s)|..], []);
      assert [Trim(s)] + [] == [Trim(s)];
    }
  }

  // ---- Fences closed and reopened ----

  ghost predicate LineFeeds(s: string) {
    forall k | 0 <= k < |s| :: s[k] == '\n'
  }

  /** A line feed and the line that closes the fence opened by `line`. */
  function Closing(line: string): string
    requires IsFenceLine(line)
  {
    "\n" + ClosingLine(Indent(line), Marker(line))
  }

  /** The text with the fence of `line` closed at `k` and reopened at `m`. */
  function Parted(a: string, k: nat, m: nat, line: string): string
    requires k <= m <= |a| && IsFenceLine(line)
  {
    a[..k] + Closing(line) + a[k..m] + (line + "\n") + a[m..]
  }

  /** `b` is `a` with the fences of `lines` closed before and reopened behind some of its line feeds, one by one. */
  ghost predicate Inserted(a: string, b: string, lines: seq<string>)
    decreases |lines|
  {
    if lines == [] then a == b
    else
      && IsFenceLine(lines[0])
      && exists k: nat, m: nat :: k <= m <= |a| && LineFeeds(a[k..m]) && Inserted(Parted(a, k, m, lines[0]), b, lines[1..])
  }

  lemma InsertedStep(a: string, k: nat, m: nat, line: string, b: string, rest: seq<string>)
    requires k <= m <= |a| && LineFeeds(a[k..m]) && IsFenceLine(line) && Inserted(Parted(a, k, m, line), b, rest)
    ensures Inserted(a, b, [line] + rest)
  {
    assert ([line] + rest)[1..] == rest;
  }

  lemma InsertedFirst(a: string, b: string, line: string, rest: seq<string>) returns (k: nat, m: nat, next: string)
    requires Inserted(a, b, [line] + rest)
    ensures k <= m <= |a| && LineFeeds(a[k..m]) && IsFenceLine(line)
    ensures next == Parted(a, k, m, line) && Inserted(next, b, rest)
  {
    assert ([line] + rest)[1..] == rest;
    k, m :| k <= m <= |a| && LineFeeds(a[k..m]) && Inserted(Parted(a, k, m, line), b, rest);
    next := Parted(a, k, m, line);
  }

  lemma {:induction false} InsertedThen(a: string, b: string, c: string, first: seq<string>, second: seq<string>)
    requires Inserted(a, b, first) && Inserted(b, c, second)
    ensures Inserted(a, c, first + second)
    decreases |first|
  {
    if first == [] {
      assert first + second == second;
    } else {
      var line, rest := first[0], first[1..];
      assert first == [line] + rest;
      var k, m, next := InsertedFirst(a, b, line, rest);
      InsertedThen(next, b, c, rest, second);
      InsertedStep(a, k, m, line, c, rest + second);
      Associative([line], rest, second);
    }
  }

  lemma PartedWithin(p: string, a: string, s: string, k: nat, m: nat, line: string)
    requires k <= m <= |a| && IsFenceLine(line)
    ensures (p + a + s)[|p| + k..|p| + m] == a[k..m]
    ensures Parted(p + a + s, |p| + k, |p| + m, line) == p + Parted(a, k, m, line) + s
  {
    var all := p + a + s;
    assert all[..|p| + k] == p + a[..k];
    assert all[|p| + k..|p| + m] == a[k..m];
    assert all[|p| + m..] == a[m..] + s;
  }

  lemma {:induction false} InsertedWithin(p: string, a: string, b: string, s: string, lines: seq<string>)
    requires Inserted(a, b, lines)
    ensures Inserted(p + a + s, p + b + s, lines)
    decreases |lines|
  {
    if lines != [] {
      var line, rest := lines[0], lines[1..];
      assert lines == [line] + rest;
      var k, m, next := InsertedFirst(a, b, line, rest);
      PartedWithin(p, a, s, k, m, line);
      InsertedWithin(p, next, b, s, rest);
      InsertedStep(p + a + s, |p| + k, |p| + m, line, p + b + s, rest);
    }
  }

  lemma InsertedBehind(p: string, a: string, b: string, lines: seq<string>)
    requires Inserted(a, b, lines)
    ensures Inserted(p + a, p + b, lines)
  {
    InsertedWithin(p, a, b, "", lines);
    assert p + a + "" == p + a && p + b + "" == p + b;
  }

  lemma InsertedBefore(a: string, b: string, s: string, lines: seq<string>)
    requires Inserted(a, b, lines)
    ensures Inserted(a + s, b + s, lines)
  {
    InsertedWithin("", a, b, s, lines);
    assert "" + a == a && "" + b == b;
  }

  lemma InsertOne(a: string, k: nat, m: nat, line: string)
    requires k <= m <= |a| && LineFeeds(a[k..m]) && IsFenceLine(line)
    ensures Inserted(a, Parted(a, k, m, line), [line])
  {
    assert [line][1..] == [];
    assert Inserted(Parted(a, k, m, line), Parted(a, k, m, line), [line][1..]);
  }

  // ---- Conservation ----

  /**
    `before`, with the fences of `lines` closed and reopened in it, is the chunks, whitespace between them, and `after`.
  */
  ghost predicate Conserves(before: string, chunks: seq<string>, after: string, lines: seq<string>) {
    exists woven :: Gapped(woven, chunks) && Inserted(before, woven + after, lines)
  }

  lemma WovenThen(before: string, w1: string, middle: string, l1: seq<string>, w2: string, after: string, l2: seq<string>)
    requires Inserted(before, w1 + middle, l1) && Inserted(middle, w2 + after, l2)
    ensures Inserted(before, w1 + w2 + after, l1 + l2)
  {
    InsertedBehind(w1, middle, w2 + after, l2);
    InsertedThen(before, w1 + middle, w1 + (w2 + after), l1, l2);
    Associative(w1, w2, after);
  }

  lemma ConservesThen(before: string, c1: seq<string>, middle: string, l1: seq<string>,
                      c2: seq<string>, after: string, l2: seq<string>)
    requires Conserves(before, c1, middle, l1) && Conserves(middle, c2, after, l2)
    ensures Conserves(before, c1 + c2, after, l1 + l2)
  {
    var w1 :| Gapped(w1, c1) && Inserted(before, w1 + middle, l1);
    var w2 :| Gapped(w2, c2) && Inserted(middle, w2 + after, l2);
    GappedAppend(w1, w2, c1, c2);
    WovenThen(before, w1, middle, l1, w2, after, l2);
    var c, l := c1 + c2, l1 + l2;
    assert Gapped(w1 + w2, c) && Inserted(before, w1 + w2 + after, l);
  }

  lemma ConservesPush(before: string, chunks: seq<string>, after: string, lines: seq<string>, text: string)
    requires Conserves(before, chunks, after, lines)
    ensures Conserves(before + text, chunks, after + text, lines)
  {
    var woven :| Gapped(woven, chunks) && Inserted(before, woven + after, lines);
    InsertedBefore(before, woven + after, text, lines);
    assert woven + after + text == woven + (after + text);
  }
}
