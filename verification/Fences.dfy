/** Fenced code blocks in ASCII text, where a byte index is a character index. */
module Fences {
  import opened Prelude

  datatype FenceSpan = FenceSpan(start: nat, end: nat, openLine: string, marker: char, indent: string)

  predicate IsMarker(c: char) {
    c == '`' || c == '~'
  }

  // ---- Lines ----

  function LineEnd(text: string, p: nat): (q: nat)
    requires p <= |text|
    ensures p <= q <= |text| && (q == |text| || text[q] == '\n') && forall k | p <= k < q :: text[k] != '\n'
    decreases |text| - p
  {
    if p == |text| || text[p] == '\n' then p else LineEnd(text, p + 1)
  }

  function LineAt(text: string, p: nat): string
    requires p <= |text|
  {
    text[p..LineEnd(text, p)]
  }

  function LinesFrom(text: string, p: nat): (lines: seq<string>)
    requires p <= |text|
    ensures lines != []
    decreases |text| - p
  {
    var q := LineEnd(text, p);
    if q == |text| then [text[p..q]] else [text[p..q]] + LinesFrom(text, q + 1)
  }

  /** The pieces between line feeds. */
  function Lines(text: string): seq<string> {
    LinesFrom(text, 0)
  }

  ghost predicate LineStart(text: string, p: nat) {
    p <= |text| && (p == 0 || text[p - 1] == '\n')
  }

  lemma LineEndIs(text: string, p: nat, q: nat)
    requires p <= q <= |text| && (q == |text| || text[q] == '\n') && forall k | p <= k < q :: text[k] != '\n'
    ensures LineEnd(text, p) == q
  {
  }

  /** No line begins inside another. */
  lemma NoStartInside(text: string, p: nat, q: nat)
    requires LineStart(text, p) && LineStart(text, q) && p < q
    ensures LineEnd(text, p) < q
  {
    var k := q - 1;
    assert text[k] == '\n';
  }

  lemma LineEndAppend(text: string, more: string, p: nat)
    requires p <= |text|
    ensures LineEnd(text + "\n" + more, p) == LineEnd(text, p) && LineAt(text + "\n" + more, p) == LineAt(text, p)
  {
    var whole := text + "\n" + more;
    assert forall k | 0 <= k < |text| :: whole[k] == text[k];
    LineEndIs(whole, p, LineEnd(text, p));
  }

  lemma LinesOfOne(text: string, p: nat)
    requires p <= |text| && '\n' !in text[p..]
    ensures LinesFrom(text, p) == [text[p..]]
  {
    forall k | p <= k < |text| ensures text[k] != '\n' {
      assert text[k] == text[p..][k - p];
    }
    LineEndIs(text, p, |text|);
    assert text[p..|text|] == text[p..];
  }

  lemma LastLineAppend(text: string, line: string)
    requires '\n' !in line
    ensures LinesFrom(text + "\n" + line, |text| + 1) == [line]
  {
    var whole := text + "\n" + line;
    assert whole[|text| + 1..] == line;
    LinesOfOne(whole, |text| + 1);
  }

  lemma LinesFromLast(text: string, p: nat)
    requires p <= |text| && LineEnd(text, p) == |text|
    ensures LinesFrom(text, p) == [LineAt(text, p)]
  {
  }

  lemma LinesFromNext(text: string, p: nat, q: nat)
    requires p <= |text| && q == LineEnd(text, p) < |text|
    ensures LinesFrom(text, p) == [LineAt(text, p)] + LinesFrom(text, q + 1)
  {
  }

  lemma LastLinesAppend(text: string, line: string, p: nat)
    requires '\n' !in line && p <= |text| && LineEnd(text, p) == |text|
    ensures LinesFrom(text + "\n" + line, p) == LinesFrom(text, p) + [line]
  {
    LineEndAppend(text, line, p);
    LinesFromNext(text + "\n" + line, p, |text|);
    LastLineAppend(text, line);
    LinesFromLast(text, p);
  }

  lemma {:induction false} LinesFromAppend(text: string, line: string, p: nat)
    requires '\n' !in line && p <= |text|
    ensures LinesFrom(text + "\n" + line, p) == LinesFrom(text, p) + [line]
    decreases |text| - p
  {
    var q := LineEnd(text, p);
    if q == |text| {
      LastLinesAppend(text, line, p);
    } else {
      LineEndAppend(text, line, p);
      LinesFromNext(text + "\n" + line, p, q);
      LinesFromNext(text, p, q);
      LinesFromAppend(text, line, q + 1);
      var first, rest := [LineAt(text, p)], LinesFrom(text, q + 1);
      assert first + (rest + [line]) == first + rest + [line];
    }
  }

  // ---- Fence lines ----

  function Repeat(c: char, n: nat): string {
    seq(n, _ => c)
  }

  function MarkerRun(s: string, c: char): nat {
    if s != "" && s[0] == c then 1 + MarkerRun(s[1..], c) else 0
  }

  predicate IsFenceLine(line: string) {
    var trimmed := TrimStart(line);
    |line| - |trimmed| <= 3 && trimmed != "" && IsMarker(trimmed[0]) && MarkerRun(trimmed, trimmed[0]) >= 3
  }

  function Marker(line: string): char
    requires IsFenceLine(line)
  {
    TrimStart(line)[0]
  }

  function RunLength(line: string): nat
    requires IsFenceLine(line)
  {
    MarkerRun(TrimStart(line), Marker(line))
  }

  function Indent(line: string): string
    requires IsFenceLine(line)
  {
    TrimStartIsSuffix(line);
    line[..|line| - |TrimStart(line)|]
  }

  /** A line that ends a fence opened by `opening`: the same marker, at least as often. */
  predicate Closes(opening: string, line: string)
    requires IsFenceLine(opening)
  {
    IsFenceLine(line) && Marker(line) == Marker(opening) && RunLength(line) >= RunLength(opening)
  }

  lemma {:induction false} TrimStartIsSuffix(s: string)
    ensures |TrimStart(s)| <= |s| && TrimStart(s) == s[|s| - |TrimStart(s)|..] && Blank(s[..|s| - |TrimStart(s)|])
    ensures TrimStart(s) != "" ==> !IsWhitespace(TrimStart(s)[0])
  {
    if s != [] && IsWhitespace(s[0]) {
      TrimStartIsSuffix(s[1..]);
      var n := |s| - |TrimStart(s)|;
      assert s[..n] == [s[0]] + s[1..][..n - 1];
    }
  }

  lemma {:induction false} TrimStartAppend(s: string, t: string)
    requires TrimStart(s) != ""
    ensures TrimStart(s + t) == TrimStart(s) + t
  {
    if IsWhitespace(s[0]) {
      TrimStartAppend(s[1..], t);
      assert (s + t)[1..] == s[1..] + t;
    }
  }

  lemma {:induction false} MarkerRunAppend(s: string, t: string, c: char)
    ensures MarkerRun(s, c) <= MarkerRun(s + t, c) && MarkerRun(s, c) <= |s|
  {
    if s != "" && s[0] == c {
      MarkerRunAppend(s[1..], t, c);
      assert (s + t)[1..] == s[1..] + t;
    }
  }

  /** At most three blanks, a run of at least three markers, and whatever does not prolong the run. */
  ghost predicate FenceParts(line: string, indent: string, c: char, n: nat) {
    && indent <= line && |indent| <= 3 && Blank(indent) && |indent| + n <= |line|
    && n >= 3 && (c == '`' || c == '~') && (forall k | |indent| <= k < |indent| + n :: line[k] == c)
    && (|indent| + n < |line| ==> line[|indent| + n] != c)
  }

  ghost predicate IsRun(s: string, c: char, n: nat) {
    n <= |s| && (forall k | 0 <= k < n :: s[k] == c) && (n < |s| ==> s[n] != c)
  }

  lemma {:induction false} MarkerRunIs(s: string, c: char)
    ensures IsRun(s, c, MarkerRun(s, c))
  {
    if s != "" && s[0] == c {
      MarkerRunIs(s[1..], c);
    }
  }

  lemma {:induction false} TrimStartIs(front: string, s: string)
    requires Blank(front) && (s != "" ==> !IsWhitespace(s[0]))
    ensures TrimStart(front + s) == s
  {
    if front == "" {
      assert front + s == s;
    } else {
      TrimStartIs(front[1..], s);
      assert (front + s)[1..] == front[1..] + s;
    }
  }

  /** A line is a fence line exactly when it has such parts, and then they are its indent, marker and run. */
  lemma FenceLineIff(line: string, indent: string, c: char, n: nat)
    ensures FenceParts(line, indent, c, n)
       <==> IsFenceLine(line) && indent == Indent(line) && c == Marker(line) && n == RunLength(line)
  {
    if FenceParts(line, indent, c, n) {
      var tail := line[|indent|..];
      assert line == indent + tail;
      TrimStartIs(indent, tail);
      MarkerRunIs(tail, c);
      forall k | 0 <= k < n ensures tail[k] == c { assert tail[k] == line[|indent| + k]; }
      assert n < |tail| ==> tail[n] == line[|indent| + n];
      assert IsRun(tail, c, n);
    }
    if IsFenceLine(line) && indent == Indent(line) && c == Marker(line) && n == RunLength(line) {
      TrimStartIsSuffix(line);
      var tail := TrimStart(line);
      MarkerRunIs(tail, c);
      forall k | |indent| <= k < |indent| + n ensures line[k] == c { assert line[k] == tail[k - |indent|]; }
      assert |indent| + n < |line| ==> line[|indent| + n] == tail[n];
    }
  }

  /** A fence line stays one when more text follows on it. */
  lemma FenceLineAppend(line: string, more: string)
    requires IsFenceLine(line)
    ensures IsFenceLine(line + more) && |line| >= 3
  {
    TrimStartIsSuffix(line);
    TrimStartAppend(line, more);
    MarkerRunAppend(TrimStart(line), more, Marker(line));
  }

  // ---- The scan ----

  datatype OpenFence = OpenFence(start: nat, marker: char, length: nat, indent: string, openLine: string)

  datatype FenceScan = FenceScan(spans: seq<FenceSpan>, unclosed: Option<OpenFence>, pos: nat)

  function SpanOf(f: OpenFence, end: nat): FenceSpan {
    FenceSpan(f.start, end, f.openLine, f.marker, f.indent)
  }

  function ScanLine(scan: FenceScan, line: string): FenceScan {
    var next := scan.pos + |line| + 1;
    if !IsFenceLine(line) then scan.(pos := next)
    else match scan.unclosed
      case None =>
        var fence := OpenFence(scan.pos, Marker(line), RunLength(line), Indent(line), line);
        FenceScan(scan.spans, Some(fence), next)
      case Some(f) =>
        if Marker(line) == f.marker && RunLength(line) >= f.length then
          FenceScan(scan.spans + [SpanOf(f, scan.pos + |line|)], None, next)
        else scan.(pos := next)
  }

  function ScanLines(scan: FenceScan, lines: seq<string>): FenceScan
    decreases |lines|
  {
    if lines == [] then scan else ScanLines(ScanLine(scan, lines[0]), lines[1..])
  }

  const Start := FenceScan([], None, 0)

  function Scan(text: string): FenceScan {
    ScanLines(Start, Lines(text))
  }

  /** The scan's spans, where an unclosed fence reaches to the end. */
  function Closed(scan: FenceScan, length: nat): seq<FenceSpan> {
    match scan.unclosed
    case None => scan.spans
    case Some(f) => scan.spans + [SpanOf(f, length)]
  }

  function FenceSpans(text: string): seq<FenceSpan> {
    Closed(Scan(text), |text|)
  }

  method ParseFenceSpans(text: string) returns (spans: seq<FenceSpan>)
    ensures spans == FenceSpans(text)
    ensures IsParse(text, spans)
  {
    var lines := Lines(text);
    var scan := Start;
    var i := 0;
    while i < |lines|
      invariant i <= |lines|
      invariant ScanLines(scan, lines[i..]) == Scan(text)
    {
      scan := ScanLine(scan, lines[i]);
      i := i + 1;
    }
    spans := Closed(scan, |text|);
    SpansAreAParse(text);
  }

  // ---- What the spans mean ----

  ghost predicate Opens(text: string, s: FenceSpan) {
    && LineStart(text, s.start) && s.openLine == LineAt(text, s.start) && IsFenceLine(s.openLine)
    && s.marker == Marker(s.openLine) && s.indent == Indent(s.openLine)
  }

  ghost predicate NoCloser(text: string, opening: string, start: nat, stop: nat)
    requires IsFenceLine(opening)
  {
    forall p: nat | start < p < stop && LineStart(text, p) :: !Closes(opening, LineAt(text, p))
  }

  /** `s` ends with the line at `q`, the first after its opening line that closes it. */
  ghost predicate ClosedAt(text: string, s: FenceSpan, q: nat) {
    && Opens(text, s) && s.start < q && LineStart(text, q) && Closes(s.openLine, LineAt(text, q))
    && s.end == q + |LineAt(text, q)| && NoCloser(text, s.openLine, s.start, q)
  }

  ghost predicate ClosedSpan(text: string, s: FenceSpan) {
    exists q: nat :: ClosedAt(text, s, q)
  }

  ghost predicate OpenSpan(text: string, s: FenceSpan) {
    Opens(text, s) && s.end == |text| && NoCloser(text, s.openLine, s.start, |text| + 1)
  }

  ghost predicate Covered(spans: seq<FenceSpan>, p: nat) {
    exists k :: 0 <= k < |spans| && spans[k].start <= p <= spans[k].end
  }

  /** The spans are closed, but for the last perhaps, in order and apart, and hold every fence line. */
  ghost predicate IsParse(text: string, spans: seq<FenceSpan>) {
    && (forall k | 0 <= k < |spans| :: ClosedSpan(text, spans[k]) || (k == |spans| - 1 && OpenSpan(text, spans[k])))
    && (forall j, k | 0 <= j < k < |spans| :: spans[j].end < spans[k].start)
    && (forall p: nat | LineStart(text, p) && IsFenceLine(LineAt(text, p)) :: Covered(spans, p))
  }

  // -- the scan yields such spans

  ghost predicate SpansSoFar(text: string, spans: seq<FenceSpan>, pos: nat) {
    && (forall k | 0 <= k < |spans| :: ClosedSpan(text, spans[k]) && spans[k].end < pos)
    && (forall j, k | 0 <= j < k < |spans| :: spans[j].end < spans[k].start)
  }

  ghost predicate OpenSoFar(text: string, spans: seq<FenceSpan>, f: OpenFence, pos: nat) {
    && Opens(text, SpanOf(f, |text|)) && f.length == RunLength(f.openLine)
    && f.start < pos && NoCloser(text, f.openLine, f.start, pos)
    && (forall k | 0 <= k < |spans| :: spans[k].end < f.start)
  }

  ghost predicate Reached(scan: FenceScan, p: nat) {
    Covered(scan.spans, p) || (scan.unclosed.Some? && scan.unclosed.value.start <= p)
  }

  ghost predicate AllReached(text: string, scan: FenceScan) {
    forall p: nat | p < scan.pos && LineStart(text, p) && IsFenceLine(LineAt(text, p)) :: Reached(scan, p)
  }

  ghost predicate SpansHold(text: string, scan: FenceScan) {
    && SpansSoFar(text, scan.spans, scan.pos)
    && (scan.unclosed.Some? ==> OpenSoFar(text, scan.spans, scan.unclosed.value, scan.pos))
  }

  ghost predicate Scanned(text: string, scan: FenceScan) {
    SpansHold(text, scan) && AllReached(text, scan)
  }

  lemma CoveredThen(spans: seq<FenceSpan>, s: FenceSpan, p: nat)
    ensures Covered(spans + [s], p) <==> Covered(spans, p) || s.start <= p <= s.end
  {
    var more := spans + [s];
    assert forall k | 0 <= k < |spans| :: more[k] == spans[k];
    assert more[|spans|] == s;
  }

  lemma ReachedThen(scan: FenceScan, line: string, p: nat)
    requires p <= scan.pos && (Reached(scan, p) || (p == scan.pos && IsFenceLine(line)))
    requires scan.unclosed.Some? ==> scan.unclosed.value.start <= scan.pos
    ensures Reached(ScanLine(scan, line), p)
  {
    if IsFenceLine(line) && scan.unclosed.Some? {
      CoveredThen(scan.spans, SpanOf(scan.unclosed.value, scan.pos + |line|), p);
    }
  }

  lemma AllReachedStep(text: string, scan: FenceScan)
    requires LineStart(text, scan.pos) && AllReached(text, scan)
    requires scan.unclosed.Some? ==> scan.unclosed.value.start <= scan.pos
    ensures AllReached(text, ScanLine(scan, LineAt(text, scan.pos)))
  {
    var line := LineAt(text, scan.pos);
    var after := ScanLine(scan, line);
    forall p: nat | p < after.pos && LineStart(text, p) && IsFenceLine(LineAt(text, p)) ensures Reached(after, p) {
      if p > scan.pos {
        NoStartInside(text, scan.pos, p);
      } else {
        ReachedThen(scan, line, p);
      }
    }
  }

  lemma NoCloserStep(text: string, opening: string, start: nat, pos: nat)
    requires LineStart(text, pos) && IsFenceLine(opening) && NoCloser(text, opening, start, pos)
    requires start == pos || !Closes(opening, LineAt(text, pos))
    ensures NoCloser(text, opening, start, pos + |LineAt(text, pos)| + 1)
  {
    forall p: nat | start < p < pos + |LineAt(text, pos)| + 1 && LineStart(text, p) ensures !Closes(opening, LineAt(text, p)) {
      if p > pos {
        NoStartInside(text, pos, p);
      }
    }
  }

  lemma CloseStep(text: string, spans: seq<FenceSpan>, f: OpenFence, pos: nat)
    requires LineStart(text, pos) && SpansSoFar(text, spans, pos) && OpenSoFar(text, spans, f, pos)
    requires Closes(f.openLine, LineAt(text, pos))
    ensures SpansSoFar(text, spans + [SpanOf(f, pos + |LineAt(text, pos)|)], pos + |LineAt(text, pos)| + 1)
  {
    var s := SpanOf(f, pos + |LineAt(text, pos)|);
    assert ClosedAt(text, s, pos);
  }

  lemma OpenStep(text: string, spans: seq<FenceSpan>, f: OpenFence, pos: nat)
    requires LineStart(text, pos) && OpenSoFar(text, spans, f, pos) && !Closes(f.openLine, LineAt(text, pos))
    ensures OpenSoFar(text, spans, f, pos + |LineAt(text, pos)| + 1)
  {
    NoCloserStep(text, f.openLine, f.start, pos);
  }

  lemma BeginStep(text: string, spans: seq<FenceSpan>, pos: nat)
    requires LineStart(text, pos) && SpansSoFar(text, spans, pos) && IsFenceLine(LineAt(text, pos))
    ensures
      var scan := ScanLine(FenceScan(spans, None, pos), LineAt(text, pos));
      OpenSoFar(text, spans, scan.unclosed.value, scan.pos)
  {
    NoCloserStep(text, LineAt(text, pos), pos, pos);
  }

  lemma SpansStepClosed(text: string, spans: seq<FenceSpan>, pos: nat)
    requires LineStart(text, pos) && SpansSoFar(text, spans, pos)
    ensures SpansHold(text, ScanLine(FenceScan(spans, None, pos), LineAt(text, pos)))
  {
    if IsFenceLine(LineAt(text, pos)) {
      BeginStep(text, spans, pos);
    }
  }

  lemma SpansStepClosing(text: string, spans: seq<FenceSpan>, f: OpenFence, pos: nat)
    requires LineStart(text, pos) && SpansSoFar(text, spans, pos) && OpenSoFar(text, spans, f, pos)
    requires Closes(f.openLine, LineAt(text, pos))
    ensures SpansHold(text, ScanLine(FenceScan(spans, Some(f), pos), LineAt(text, pos)))
  {
    var line := LineAt(text, pos);
    var s := SpanOf(f, pos + |line|);
    assert ScanLine(FenceScan(spans, Some(f), pos), line) == FenceScan(spans + [s], None, pos + |line| + 1);
    CloseStep(text, spans, f, pos);
  }

  lemma SpansStepGoingOn(text: string, spans: seq<FenceSpan>, f: OpenFence, pos: nat)
    requires LineStart(text, pos) && SpansSoFar(text, spans, pos) && OpenSoFar(text, spans, f, pos)
    requires !Closes(f.openLine, LineAt(text, pos))
    ensures SpansHold(text, ScanLine(FenceScan(spans, Some(f), pos), LineAt(text, pos)))
  {
    OpenStep(text, spans, f, pos);
  }

  lemma SpansStepOpen(text: string, spans: seq<FenceSpan>, f: OpenFence, pos: nat)
    requires LineStart(text, pos) && SpansSoFar(text, spans, pos) && OpenSoFar(text, spans, f, pos)
    ensures SpansHold(text, ScanLine(FenceScan(spans, Some(f), pos), LineAt(text, pos)))
  {
    if Closes(f.openLine, LineAt(text, pos)) {
      SpansStepClosing(text, spans, f, pos);
    } else {
      SpansStepGoingOn(text, spans, f, pos);
    }
  }

  lemma ScannedStep(text: string, scan: FenceScan)
    requires LineStart(text, scan.pos) && Scanned(text, scan)
    ensures Scanned(text, ScanLine(scan, LineAt(text, scan.pos)))
  {
    AllReachedStep(text, scan);
    match scan.unclosed {
      case None => SpansStepClosed(text, scan.spans, scan.pos);
      case Some(f) => SpansStepOpen(text, scan.spans, f, scan.pos);
    }
  }

  lemma {:induction false} ScanIsScanned(text: string, scan: FenceScan)
    requires LineStart(text, scan.pos) && Scanned(text, scan)
    ensures var after := ScanLines(scan, LinesFrom(text, scan.pos)); Scanned(text, after) && after.pos == |text| + 1
    decreases |text| - scan.pos
  {
    var lines := LinesFrom(text, scan.pos);
    var next := ScanLine(scan, lines[0]);
    ScannedStep(text, scan);
    assert next.pos == LineEnd(text, scan.pos) + 1;
    if LineEnd(text, scan.pos) < |text| {
      assert lines[1..] == LinesFrom(text, next.pos);
      ScanIsScanned(text, next);
    } else {
      assert lines[1..] == [];
    }
  }

  lemma ScanMeaning(text: string)
    ensures Scanned(text, Scan(text)) && Scan(text).pos == |text| + 1
  {
    ScanIsScanned(text, Start);
  }

  lemma SpansAreAParse(text: string)
    ensures IsParse(text, FenceSpans(text))
  {
    ScanMeaning(text);
    var scan := Scan(text);
    forall p: nat | LineStart(text, p) && IsFenceLine(LineAt(text, p)) ensures Covered(FenceSpans(text), p) {
      assert Reached(scan, p);
      if scan.unclosed.Some? {
        CoveredThen(scan.spans, SpanOf(scan.unclosed.value, |text|), p);
      }
    }
  }

  // -- and there are no others

  lemma SpanIsSpan(text: string, s: FenceSpan, t: FenceSpan)
    requires ClosedSpan(text, s) || OpenSpan(text, s)
    requires ClosedSpan(text, t) || OpenSpan(text, t)
    requires s.start == t.start
    ensures s == t
  {
    if ClosedSpan(text, s) && ClosedSpan(text, t) {
      var p: nat :| ClosedAt(text, s, p);
      var q: nat :| ClosedAt(text, t, q);
      assert p == q;
    }
  }

  ghost predicate InOrder(spans: seq<FenceSpan>) {
    && (forall k | 0 <= k < |spans| :: spans[k].start <= spans[k].end)
    && (forall j, k | 0 <= j < k < |spans| :: spans[j].end < spans[k].start)
  }

  lemma ParseInOrder(text: string, spans: seq<FenceSpan>)
    requires IsParse(text, spans)
    ensures InOrder(spans)
  {
  }

  /** Of two divisions into ordered spans that agree so far, the one that covers the other's next start begins no later. */
  lemma NextCovers(s: seq<FenceSpan>, t: seq<FenceSpan>, k: nat)
    requires InOrder(s) && InOrder(t) && k <= |s| && k < |t| && s[..k] == t[..k] && Covered(s, t[k].start)
    ensures k < |s| && s[k].start <= t[k].start
  {
    assert forall j | 0 <= j < k :: s[j] == s[..k][j] && t[j] == t[..k][j];
    var j :| 0 <= j < |s| && s[j].start <= t[k].start <= s[j].end;
    if j > k {
      assert s[k].end < s[j].start;
    }
  }

  lemma StartsNoLater(text: string, s: seq<FenceSpan>, t: seq<FenceSpan>, k: nat)
    requires IsParse(text, s) && IsParse(text, t) && k <= |s| && k < |t| && s[..k] == t[..k]
    ensures k < |s| && s[k].start <= t[k].start
  {
    ParseInOrder(text, s);
    ParseInOrder(text, t);
    assert Opens(text, t[k]);
    assert Covered(s, t[k].start);
    NextCovers(s, t, k);
  }

  lemma {:induction false} SameParse(text: string, s: seq<FenceSpan>, t: seq<FenceSpan>, k: nat)
    requires IsParse(text, s) && IsParse(text, t) && k <= |s| && k <= |t| && s[..k] == t[..k]
    ensures s == t
    decreases |s| - k
  {
    if k < |s| || k < |t| {
      if k < |s| {
        StartsNoLater(text, t, s, k);
      }
      if k < |t| {
        StartsNoLater(text, s, t, k);
      }
      SpanIsSpan(text, s[k], t[k]);
      assert s[..k + 1] == s[..k] + [s[k]] && t[..k + 1] == t[..k] + [t[k]];
      SameParse(text, s, t, k + 1);
    } else {
      assert s[..k] == s && t[..k] == t;
    }
  }

  /** What the parser promises: its result is the one way to divide the text into fences. */
  lemma FenceSpansIff(text: string, spans: seq<FenceSpan>)
    ensures spans == FenceSpans(text) <==> IsParse(text, spans)
  {
    SpansAreAParse(text);
    if IsParse(text, spans) {
      SameParse(text, spans, FenceSpans(text), 0);
    }
  }

  // ---- Closing what is left open ----

  lemma {:induction false} TrimStartBlank(blank: string, s: string)
    requires (forall c | c in blank :: IsWhitespace(c)) && s != "" && !IsWhitespace(s[0])
    ensures TrimStart(blank + s) == s
  {
    if blank == "" {
      assert blank + s == s;
    } else {
      TrimStartBlank(blank[1..], s);
      assert (blank + s)[1..] == blank[1..] + s;
    }
  }

  lemma {:induction false} IndentIsBlank(s: string)
    ensures |TrimStart(s)| <= |s| && forall c | c in s[..|s| - |TrimStart(s)|] :: IsWhitespace(c)
  {
    if s != [] && IsWhitespace(s[0]) {
      IndentIsBlank(s[1..]);
      TrimStartIsSuffix(s);
      var n := |s| - |TrimStart(s)|;
      assert s[..n] == [s[0]] + s[1..][..n - 1];
    }
  }

  lemma {:induction false} MarkerRunRepeat(c: char, n: nat)
    ensures MarkerRun(Repeat(c, n), c) == n
  {
    if n > 0 {
      MarkerRunRepeat(c, n - 1);
      assert Repeat(c, n)[1..] == Repeat(c, n - 1);
    }
  }

  /** The line written to close a fence: its indent and three of its markers. */
  function ClosingLine(indent: string, marker: char): string {
    indent + Repeat(marker, 3)
  }

  lemma ClosingLineIsFence(line: string)
    requires IsFenceLine(line) && '\n' !in line
    ensures
      var closing := ClosingLine(Indent(line), Marker(line));
      && IsFenceLine(closing) && Marker(closing) == Marker(line) && RunLength(closing) == 3 && '\n' !in closing
      && |Indent(line)| <= 3
  {
    IndentIsBlank(line);
    TrimStartIsSuffix(line);
    TrimStartBlank(Indent(line), Repeat(Marker(line), 3));
    MarkerRunRepeat(Marker(line), 3);
  }

  lemma {:induction false} ScanLinesThen(scan: FenceScan, lines: seq<string>, line: string)
    ensures ScanLines(scan, lines + [line]) == ScanLine(ScanLines(scan, lines), line)
    decreases |lines|
  {
    if lines == [] {
      assert lines + [line] == [line] && [line][1..] == [];
    } else {
      ScanLinesThen(ScanLine(scan, lines[0]), lines[1..], line);
      assert (lines + [line])[1..] == lines[1..] + [line];
    }
  }

  lemma ScanThenLine(text: string, line: string)
    requires '\n' !in line
    ensures Scan(text + "\n" + line) == ScanLine(Scan(text), line)
  {
    LinesFromAppend(text, line, 0);
    ScanLinesThen(Start, Lines(text), line);
  }

  /** Every fence of the text is closed in it. */
  predicate Balanced(text: string) {
    Scan(text).unclosed.None?
  }

  predicate IsSafeFenceBreak(spans: seq<FenceSpan>, index: nat) {
    forall s | s in spans :: !(s.start < index < s.end)
  }
}
