// The `truncate` template filter: shortens a string to a maximum length,
// marking the cut with a horizontal ellipsis.

module Typography {
  import opened Base

  /** Whether Python 2.7's `unicode.isspace()` holds for the character
      (Unicode 5.2, where U+180E MONGOLIAN VOWEL SEPARATOR is still a
      space separator): the characters a `unicode.strip()` with no
      argument removes. */
  predicate IsUnicodeSpace(c: char)
  {
    '\t' <= c <= '\r' || '\U{1C}' <= c <= ' ' || c == '\U{85}' || c == '\U{A0}' ||
    c == '\U{1680}' || c == '\U{180E}' || '\U{2000}' <= c <= '\U{200A}' || c == '\U{2028}' || c == '\U{2029}' ||
    c == '\U{202F}' || c == '\U{205F}' || c == '\U{3000}'
  }

  const UnicodeWhitespace: set<char> := set c: char | '\t' <= c <= '\U{3000}' && IsUnicodeSpace(c)

  /** U+2026 HORIZONTAL ELLIPSIS, appended to a truncated string. */
  const Ellipsis: char := '\U{2026}'

  /** The filter's default `max_length`. */
  const DefaultMaxLength: int := 15

  /** Python's `s[:n]` for any integer `n`: a negative bound counts back
      from the end of the string, and a bound past either end is clipped. */
  function SliceTo(s: string, n: int): (r: string)
    ensures r <= s
    ensures 0 <= n ==> |r| == if n < |s| then n else |s|
    ensures n < 0 ==> |r| == if |s| + n < 0 then 0 else |s| + n
  {
    if 0 <= n then Take(s, n)
    else if |s| + n < 0 then []
    else s[..|s| + n]
  }

  /** `truncate(value, max_length)`: a value longer than `maxLength` is cut
      to its first `maxLength - 1` characters, stripped of surrounding
      whitespace, and ended with an ellipsis; any other value is returned
      as it is. */
  function Truncate(value: string, maxLength: int): (r: string)
    ensures |value| <= maxLength <==> r == value && |r| <= maxLength
    ensures |value| > maxLength ==> 1 <= |r| && r[|r| - 1] == Ellipsis
  {
    if |value| > maxLength then
      Truncated(value, maxLength) + [Ellipsis]
    else
      value
  }

  /** A truncated result is at most `maxLength` long, and what precedes the
      ellipsis is a whitespace-trimmed piece of the first `maxLength - 1`
      characters of the value. */
  lemma TruncateShape(value: string, maxLength: int) returns (k: nat)
    requires 1 <= maxLength < |value|
    ensures |Truncate(value, maxLength)| <= maxLength
    ensures Truncate(value, maxLength) == Truncated(value, maxLength) + [Ellipsis]
    ensures k + |Truncated(value, maxLength)| <= maxLength - 1
    ensures value[k..k + |Truncated(value, maxLength)|] == Truncated(value, maxLength)
  {
    var body := Truncated(value, maxLength);
    assert SliceTo(value, maxLength - 1) == value[..maxLength - 1];
    k := StripPrefixShape(value, maxLength - 1, UnicodeWhitespace, body);
    assert Truncate(value, maxLength) == body + [Ellipsis];
  }

  /** A body stripped from a prefix of `value` is a piece of `value` inside
      that prefix. */
  lemma StripPrefixShape(value: string, n: nat, chars: set<char>, body: string) returns (k: nat)
    requires n <= |value| && body == Strip(value[..n], chars)
    ensures k + |body| <= n && value[k..k + |body|] == body
  {
    var cut := value[..n];
    k := StripShape(cut, chars);
    assert value[k..k + |body|] == cut[k..k + |body|];
  }

  /** The text kept before the ellipsis when `value` is truncated: its first
      `maxLength - 1` characters with surrounding whitespace removed; it
      neither starts nor ends with whitespace. */
  function Truncated(value: string, maxLength: int): (body: string)
    ensures body == [] || (body[0] !in UnicodeWhitespace && body[|body| - 1] !in UnicodeWhitespace)
  {
    Strip(SliceTo(value, maxLength - 1), UnicodeWhitespace)
  }

  /** Stripping leaves a string alone when it neither starts nor ends with
      whitespace. */
  lemma StripUnchanged(s: string)
    requires s == [] || (s[0] !in UnicodeWhitespace && s[|s| - 1] !in UnicodeWhitespace)
    ensures Strip(s, UnicodeWhitespace) == s
  {
    assert LStrip(s, UnicodeWhitespace) == s;
  }

  /** With a maximum of zero the ellipsis is still appended, so the result
      is longer than the maximum: the length bound needs `max_length >= 1`. */
  lemma TruncateZeroOverruns()
    ensures Truncate("ab", 0) == "a" + [Ellipsis]
    ensures |Truncate("ab", 0)| > 0
  {
    assert SliceTo("ab", -1) == "a";
    assert !IsUnicodeSpace('a');
    StripUnchanged("a");
    assert Truncated("ab", 0) == "a";
  }

  /** For a fixed non-negative maximum, truncating a second time changes
      nothing. */
  lemma TruncateIdempotent(value: string, maxLength: int)
    requires 0 <= maxLength
    ensures Truncate(Truncate(value, maxLength), maxLength) == Truncate(value, maxLength)
  {
    if |value| > maxLength && maxLength == 0 {
      var body := Strip(SliceTo(value, -1), UnicodeWhitespace);
      var r := body + [Ellipsis];
      assert Truncate(value, 0) == r;
      assert SliceTo(r, -1) == body;
      StripIdempotent(SliceTo(value, -1), UnicodeWhitespace);
    } else if |value| > maxLength {
      var _ := TruncateShape(value, maxLength);
    }
  }

  /** A value cut where its kept part ends in a non-space character keeps
      that part whole. */
  lemma TruncateAtWord(a: string, rest: string)
    requires a != [] && a[0] !in UnicodeWhitespace && a[|a| - 1] !in UnicodeWhitespace
    requires |rest| > 1
    ensures Truncate(a + rest, |a| + 1) == a + [Ellipsis]
  {
    SliceAppend(a, rest);
    StripUnchanged(a);
  }

  /** A value cut just after a space loses that space before the
      ellipsis, so the result is shorter than the maximum. */
  lemma TruncateAtSpace(b: string, rest: string)
    requires b != [] && b[0] !in UnicodeWhitespace && b[|b| - 1] !in UnicodeWhitespace
    requires |rest| > 1
    ensures Truncate(b + " " + rest, |b| + 2) == b + [Ellipsis]
    ensures |Truncate(b + " " + rest, |b| + 2)| < |b| + 2
  {
    SliceAppend(b + " ", rest);
    TrailingSpaceStripped(b, ' ');
  }

  /** The filter's documented examples use the default maximum of 15 and a
      maximum of 26; with 26, stripping makes the result shorter than the
      maximum. */
  lemma TruncateExampleDigits()
    ensures Truncate("123456789012345", DefaultMaxLength) == "123456789012345"
    ensures Truncate("12345678901234" + "56", DefaultMaxLength) == "12345678901234" + [Ellipsis]
  {
    TruncateAtWord("12345678901234", "56");
  }

  lemma TruncateExampleSentence()
    ensures Truncate("This is a long" + " sentence, with nothing to say", DefaultMaxLength)
      == "This is a long" + [Ellipsis]
  {
    TruncateAtWord("This is a long", " sentence, with nothing to say");
  }

  lemma TruncateExampleStripped()
    ensures Truncate("This is a long sentence," + " " + "with nothing to say", 26)
      == "This is a long sentence," + [Ellipsis]
    ensures |Truncate("This is a long sentence," + " " + "with nothing to say", 26)| < 26
  {
    TruncateAtSpace("This is a long sentence,", "with nothing to say");
  }

  /** A whitespace character after text that neither starts nor ends with
      whitespace is stripped off. */
  lemma TrailingSpaceStripped(b: string, w: char)
    requires b != [] && b[0] !in UnicodeWhitespace && b[|b| - 1] !in UnicodeWhitespace
    requires IsUnicodeSpace(w)
    ensures Strip(b + [w], UnicodeWhitespace) == b
  {
    assert w in UnicodeWhitespace;
    assert LStrip(b + [w], UnicodeWhitespace) == b + [w];
    assert (b + [w])[..|b|] == b;
    assert RStrip(b + [w], UnicodeWhitespace) == RStrip(b, UnicodeWhitespace);
    StripUnchanged(b);
  }

  /** Python 2.7 counts U+180E MONGOLIAN VOWEL SEPARATOR as whitespace, so
      a cut just after it loses it before the ellipsis. */
  lemma TruncateDropsVowelSeparator()
    ensures Truncate("abcdefghijklm" + "\U{180E}" + "XYZ", DefaultMaxLength)
      == "abcdefghijklm" + [Ellipsis]
  {
    var value := "abcdefghijklm" + "\U{180E}" + "XYZ";
    assert SliceTo(value, DefaultMaxLength - 1) == "abcdefghijklm" + ['\U{180E}'];
    TrailingSpaceStripped("abcdefghijklm", '\U{180E}');
  }
}
