/** Text measured in UTF-8 bytes and cut at character boundaries. */
module Text {
  import opened Prelude

  /** Bytes a character takes in UTF-8 (section 3 of RFC 3629). */
  function Utf8Size(c: char): nat {
    if c < '\U{80}' then 1 else if c < '\U{800}' then 2 else if c < '\U{10000}' then 3 else 4
  }

  function ByteLen(s: string): nat {
    if s == "" then 0 else ByteLen(s[..|s| - 1]) + Utf8Size(s[|s| - 1])
  }

  /** The longest prefix of at most `bytes` bytes: the text up to the boundary at or below that index. */
  function KeepBytes(s: string, bytes: nat): string {
    if ByteLen(s) <= bytes then s else KeepBytes(s[..|s| - 1], bytes)
  }

  /** The text before its last newline, or all of it. */
  function BeforeLastNewline(s: string): Option<string> {
    if s == "" then None
    else if s[|s| - 1] == '\n' then Some(s[..|s| - 1])
    else BeforeLastNewline(s[..|s| - 1])
  }

  function CutAtNewline(s: string): string {
    match BeforeLastNewline(s)
    case Some(head) => head
    case None => s
  }

  lemma {:induction false} ByteLenAppend(a: string, b: string)
    ensures ByteLen(a + b) == ByteLen(a) + ByteLen(b)
  {
    if b == "" {
      assert a + b == a;
    } else {
      var last := |b| - 1;
      ByteLenAppend(a, b[..last]);
      assert (a + b)[..|a + b| - 1] == a + b[..last];
    }
  }

  lemma {:induction false} AsciiByteLen(s: string)
    requires forall i | 0 <= i < |s| :: s[i] < '\U{80}'
    ensures ByteLen(s) == |s|
  {
    if s != "" {
      AsciiByteLen(s[..|s| - 1]);
    }
  }

  /** `kept` is the longest front part of `s` that takes at most `bytes` bytes. */
  ghost predicate LongestWithin(s: string, bytes: nat, kept: string) {
    && kept <= s && ByteLen(kept) <= bytes
    && forall longer | longer <= s && ByteLen(longer) <= bytes :: |longer| <= |kept|
  }

  lemma {:induction false} KeepBytesIsLongest(s: string, bytes: nat)
    ensures LongestWithin(s, bytes, KeepBytes(s, bytes))
  {
    if ByteLen(s) > bytes {
      var init := s[..|s| - 1];
      KeepBytesIsLongest(init, bytes);
      forall longer | longer <= s && ByteLen(longer) <= bytes ensures |longer| <= |KeepBytes(s, bytes)| {
        assert |longer| == |s| ==> longer == s;
        assert |longer| < |s| ==> longer <= init;
      }
    }
  }

  /** `head` is what stands before the last newline of `s`, or all of `s` if it has none. */
  ghost predicate BeforeLastLine(s: string, head: string) {
    if '\n' in s
    then head <= s && |head| < |s| && s[|head|] == '\n' && '\n' !in s[|head| + 1..]
    else head == s
  }

  lemma {:induction false} CutAtNewlineMeaning(s: string)
    ensures BeforeLastLine(s, CutAtNewline(s))
    ensures BeforeLastNewline(s).Some? <==> '\n' in s
  {
    if s != "" {
      var last := |s| - 1;
      assert s == s[..last] + [s[last]];
      if s[last] != '\n' {
        CutAtNewlineMeaning(s[..last]);
        if '\n' in s {
          var head := CutAtNewline(s[..last]);
          assert s[|head| + 1..] == s[..last][|head| + 1..] + [s[last]];
        }
      } else {
        assert s[last + 1..] == "";
      }
    }
  }

  /** What is kept when `s` is cut to `bytes` bytes and back to the last line end among them. */
  ghost predicate FrontPart(s: string, bytes: nat, kept: string) {
    exists window :: LongestWithin(s, bytes, window) && BeforeLastLine(window, kept)
  }

  lemma CutIsFrontPart(s: string, bytes: nat)
    ensures FrontPart(s, bytes, CutAtNewline(KeepBytes(s, bytes)))
  {
    KeepBytesIsLongest(s, bytes);
    CutAtNewlineMeaning(KeepBytes(s, bytes));
  }

  lemma {:induction false} PrefixByteLen(s: string, n: nat)
    requires n <= |s|
    ensures ByteLen(s[..n]) <= ByteLen(s)
  {
    assert s == s[..n] + s[n..];
    ByteLenAppend(s[..n], s[n..]);
  }

  lemma FrontPartIsShort(s: string, bytes: nat, kept: string)
    requires FrontPart(s, bytes, kept)
    ensures kept <= s && ByteLen(kept) <= bytes
  {
    var window :| LongestWithin(s, bytes, window) && BeforeLastLine(window, kept);
    assert kept == window[..|kept|] == s[..|kept|];
    PrefixByteLen(window, |kept|);
  }

  function Decimal(n: nat): string {
    if n < 10 then ['0' + n as char] else Decimal(n / 10) + ['0' + (n % 10) as char]
  }

  lemma {:induction false} DecimalLength(n: nat)
    ensures ByteLen(Decimal(n)) == |Decimal(n)| && 1 <= |Decimal(n)| <= 1 + n / 10
    ensures n < 1000 ==> |Decimal(n)| <= 3
    ensures forall i | 0 <= i < |Decimal(n)| :: Decimal(n)[i] < '\U{80}'
  {
    if n >= 10 {
      DecimalLength(n / 10);
      if n < 1000 && n / 10 >= 10 {
        DecimalLength(n / 100);
        assert n / 10 / 10 == n / 100 < 10;
      }
    }
    AsciiByteLen(Decimal(n));
  }

  ghost function DigitsValue(s: string): int {
    if s == "" then 0 else 10 * DigitsValue(s[..|s| - 1]) + (s[|s| - 1] as int - '0' as int)
  }

  /** The decimal form of a number: digits of its value, with no zero in front. */
  lemma {:induction false} DecimalMeaning(n: nat)
    ensures var d := Decimal(n);
      && (forall i | 0 <= i < |d| :: '0' <= d[i] <= '9') && DigitsValue(d) == n
      && d != "" && (n > 0 ==> d[0] != '0')
  {
    if n >= 10 {
      DecimalMeaning(n / 10);
      assert Decimal(n)[..|Decimal(n)| - 1] == Decimal(n / 10);
    } else {
      assert Decimal(n)[..0] == "";
    }
  }

  lemma DecimalDigits(n: nat)
    requires n < 1000
    ensures |Decimal(n)| == if n < 10 then 1 else if n < 100 then 2 else 3
  {
    if n >= 10 {
      assert |Decimal(n)| == |Decimal(n / 10)| + 1;
      if n >= 100 {
        assert |Decimal(n / 10)| == |Decimal(n / 10 / 10)| + 1;
      }
    }
  }
}
