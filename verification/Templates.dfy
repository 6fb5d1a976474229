/** Replacing the placeholder of an input template. */
module Templates {
  import opened Prelude

  const PLACEHOLDER := "{output}"

  function ReplaceAll(s: string, pattern: string, value: string): string
    requires pattern != ""
  {
    if |s| < |pattern| then s
    else if s[..|pattern|] == pattern then value + ReplaceAll(s[|pattern|..], pattern, value)
    else [s[0]] + ReplaceAll(s[1..], pattern, value)
  }

  // ---- A template is parts joined by the placeholder ----

  function JoinWith(parts: seq<string>, separator: string): string
    requires parts != []
  {
    if |parts| == 1 then parts[0] else parts[0] + separator + JoinWith(parts[1..], separator)
  }

  /** The parts of `template` between its placeholders. */
  ghost predicate IsSplitting(template: string, parts: seq<string>) {
    && parts != [] && template == JoinWith(parts, "{output}")
    && forall part | part in parts :: !IsSlice("{output}", part)
  }

  lemma OccursBehind(front: string, s: string, pattern: string, p: nat)
    ensures OccursAt(front + s, pattern, |front| + p) <==> OccursAt(s, pattern, p)
  {
    if p + |pattern| <= |s| {
      assert (front + s)[|front| + p..|front| + p + |pattern|] == s[p..p + |pattern|];
    }
  }

  /** The placeholder begins with its only brace of that kind, so two of its occurrences never overlap. */
  lemma NoOverlap(s: string, p: nat, q: nat)
    requires OccursAt(s, PLACEHOLDER, p) && OccursAt(s, PLACEHOLDER, q) && p < q
    ensures p + |PLACEHOLDER| <= q
  {
    assert s[q] == s[q..q + |PLACEHOLDER|][0] == '{';
    forall k | p < k < p + |PLACEHOLDER| ensures s[k] != '{' {
      assert s[k] == s[p..p + |PLACEHOLDER|][k - p] == PLACEHOLDER[k - p];
    }
  }

  lemma FirstPlaceholder(part: string, rest: string, p: nat)
    requires !IsSlice(PLACEHOLDER, part) && OccursAt(part + PLACEHOLDER + rest, PLACEHOLDER, p)
    ensures p >= |part|
  {
    var s := part + PLACEHOLDER + rest;
    assert s[|part|..|part| + |PLACEHOLDER|] == PLACEHOLDER;
    forall q: nat | q + |PLACEHOLDER| <= |part| ensures !OccursAt(s, PLACEHOLDER, q) {
      assert part[q..q + |PLACEHOLDER|] == s[q..q + |PLACEHOLDER|];
      assert !OccursAt(part, PLACEHOLDER, q);
    }
    if p < |part| {
      NoOverlap(s, p, |part|);
    }
  }

  lemma PlaceholderInJoin(parts: seq<string>)
    requires |parts| >= 2
    ensures JoinWith(parts, PLACEHOLDER) == parts[0] + PLACEHOLDER + JoinWith(parts[1..], PLACEHOLDER)
    ensures OccursAt(JoinWith(parts, PLACEHOLDER), PLACEHOLDER, |parts[0]|)
  {
    var s := JoinWith(parts, PLACEHOLDER);
    assert s[|parts[0]|..|parts[0]| + |PLACEHOLDER|] == PLACEHOLDER;
  }

  /** A template has one splitting. */
  lemma {:induction false} SplittingIsUnique(template: string, a: seq<string>, b: seq<string>)
    requires IsSplitting(template, a) && IsSplitting(template, b)
    ensures a == b
    decreases |a|
  {
    assert a[0] in a && b[0] in b;
    if |a| >= 2 && |b| >= 2 {
      PlaceholderInJoin(a);
      PlaceholderInJoin(b);
      FirstPlaceholder(a[0], JoinWith(a[1..], PLACEHOLDER), |b[0]|);
      FirstPlaceholder(b[0], JoinWith(b[1..], PLACEHOLDER), |a[0]|);
      assert a[0] == template[..|a[0]|] == b[0];
      var rest := template[|a[0]| + |PLACEHOLDER|..];
      assert rest == JoinWith(a[1..], PLACEHOLDER) == JoinWith(b[1..], PLACEHOLDER);
      SplittingIsUnique(rest, a[1..], b[1..]);
      assert a == [a[0]] + a[1..] && b == [b[0]] + b[1..];
    } else if |a| >= 2 {
      PlaceholderInJoin(a);
    } else if |b| >= 2 {
      PlaceholderInJoin(b);
    }
  }

  lemma NoneInOne(c: char, part: string)
    requires !IsSlice(PLACEHOLDER, part) && (|part| + 1 < |PLACEHOLDER| || ([c] + part)[..|PLACEHOLDER|] != PLACEHOLDER)
    ensures !IsSlice(PLACEHOLDER, [c] + part)
  {
    var s := [c] + part;
    forall p: nat ensures !OccursAt(s, PLACEHOLDER, p) {
      if p > 0 {
        OccursBehind([c], part, PLACEHOLDER, p - 1);
      } else if |PLACEHOLDER| <= |s| {
        assert s[0..|PLACEHOLDER|] == s[..|PLACEHOLDER|];
      }
    }
  }

  /** Every template has a splitting, and replacing the placeholder joins the same parts by the value. */
  lemma {:induction false} ReplacedParts(template: string, value: string) returns (parts: seq<string>)
    ensures IsSplitting(template, parts) && ReplaceAll(template, PLACEHOLDER, value) == JoinWith(parts, value)
    decreases |template|
  {
    if |template| < |PLACEHOLDER| {
      parts := [template];
    } else if template[..|PLACEHOLDER|] == PLACEHOLDER {
      var rest := ReplacedParts(template[|PLACEHOLDER|..], value);
      parts := [""] + rest;
      assert parts[1..] == rest;
      assert !IsSlice(PLACEHOLDER, "");
      assert template == template[..|PLACEHOLDER|] + template[|PLACEHOLDER|..];
    } else {
      var rest := ReplacedParts(template[1..], value);
      parts := [[template[0]] + rest[0]] + rest[1..];
      PrependToFirst(template[0], rest, PLACEHOLDER);
      PrependToFirst(template[0], rest, value);
      assert template == [template[0]] + template[1..];
      FirstPartIsPrefix(template, rest);
      NoneInOne(template[0], rest[0]);
    }
  }

  lemma PrependToFirst(c: char, parts: seq<string>, separator: string)
    requires parts != []
    ensures JoinWith([[c] + parts[0]] + parts[1..], separator) == [c] + JoinWith(parts, separator)
  {
    var more := [[c] + parts[0]] + parts[1..];
    assert more[1..] == parts[1..];
    if |parts| > 1 {
      assert [c] + parts[0] + separator + JoinWith(parts[1..], separator)
          == [c] + (parts[0] + separator + JoinWith(parts[1..], separator));
    }
  }

  lemma FirstPartIsPrefix(template: string, rest: seq<string>)
    requires template != "" && rest != [] && template[1..] == JoinWith(rest, PLACEHOLDER)
    requires |template| >= |PLACEHOLDER| && template[..|PLACEHOLDER|] != PLACEHOLDER
    ensures var s := [template[0]] + rest[0]; |s| < |PLACEHOLDER| || s[..|PLACEHOLDER|] != PLACEHOLDER
  {
    var s := [template[0]] + rest[0];
    assert rest[0] == template[1..][..|rest[0]|];
    assert s == template[..|s|];
    if |s| >= |PLACEHOLDER| {
      assert s[..|PLACEHOLDER|] == template[..|PLACEHOLDER|];
    }
  }

  /** Replacing the placeholder joins the parts of the template by the value. */
  lemma ReplacedIff(template: string, value: string, parts: seq<string>)
    requires IsSplitting(template, parts)
    ensures ReplaceAll(template, PLACEHOLDER, value) == JoinWith(parts, value)
  {
    var found := ReplacedParts(template, value);
    SplittingIsUnique(template, parts, found);
  }

  lemma {:induction false} JoinedLength(parts: seq<string>)
    requires parts != []
    ensures |JoinWith(parts, "x")| == |JoinWith(parts, "")| + |parts| - 1
  {
    if |parts| > 1 {
      JoinedLength(parts[1..]);
    }
  }

  /** The value shows in the result if and only if the template holds the placeholder. */
  lemma ValueShowsIff(template: string)
    ensures IsSlice(PLACEHOLDER, template)
       <==> ReplaceAll(template, PLACEHOLDER, "x") != ReplaceAll(template, PLACEHOLDER, "")
    ensures !IsSlice(PLACEHOLDER, template) ==> forall value :: ReplaceAll(template, PLACEHOLDER, value) == template
  {
    var parts := ReplacedParts(template, "x");
    ReplacedIff(template, "", parts);
    JoinedLength(parts);
    if |parts| > 1 {
      PlaceholderInJoin(parts);
    } else {
      assert parts[0] in parts;
      forall value ensures ReplaceAll(template, PLACEHOLDER, value) == template {
        ReplacedIff(template, value, parts);
      }
    }
  }
}
