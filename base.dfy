/** Shared building blocks: failure-carrying results and the handful of
    Python string operations (slicing, strip, split, rsplit, int, str)
    that the gig site applies to scraped text. */
module Base {

  datatype Option<+T> = None | Some(value: T)

  datatype Result<+T, +E> = Ok(value: T) | Err(error: E)

  /** Python's `s[:n]` for a non-negative bound. */
  function Take<T>(s: seq<T>, n: nat): (r: seq<T>)
    ensures |r| == if n < |s| then n else |s|
    ensures r <= s
  {
    if n < |s| then s[..n] else s
  }

  predicate EndsWith<T(==)>(s: seq<T>, suffix: seq<T>)
  {
    |suffix| <= |s| && s[|s| - |suffix|..] == suffix
  }

  /** Slicing a concatenation at the seam gives back its two parts. */
  lemma SliceAppend<T>(a: seq<T>, b: seq<T>)
    ensures (a + b)[..|a|] == a && (a + b)[|a|..] == b
  {
  }

  // ---------------------------------------------------------------------
  // strip

  /** Python's `s.lstrip(chars)`. */
  function LStrip(s: string, chars: set<char>): (r: string)
    ensures EndsWith(s, r)
    ensures r == [] || r[0] !in chars
    ensures forall i :: 0 <= i < |s| - |r| ==> s[i] in chars
    decreases |s|
  {
    if s != [] && s[0] in chars then LStrip(s[1..], chars) else s
  }

  /** Python's `s.rstrip(chars)`. */
  function RStrip(s: string, chars: set<char>): (r: string)
    ensures r <= s
    ensures r == [] || r[|r| - 1] !in chars
    ensures forall i :: |r| <= i < |s| ==> s[i] in chars
    decreases |s|
  {
    if s != [] && s[|s| - 1] in chars then RStrip(s[..|s| - 1], chars) else s
  }

  /** Python's `s.strip(chars)`: the longest middle slice that neither
      starts nor ends with one of `chars`. */
  function Strip(s: string, chars: set<char>): (r: string)
    ensures r == [] || (r[0] !in chars && r[|r| - 1] !in chars)
  {
    RStrip(LStrip(s, chars), chars)
  }

  /** The stripped text is the slice of `s` starting at `k`, and it
      neither starts nor ends with a stripped character. */
  lemma {:induction false} StripShape(s: string, chars: set<char>) returns (k: nat)
    ensures var r := Strip(s, chars);
      k + |r| <= |s| && s[k..k + |r|] == r
    ensures var r := Strip(s, chars);
      r == [] || (r[0] !in chars && r[|r| - 1] !in chars)
    // everything cut off at either end is one of `chars`
    ensures forall i :: 0 <= i < k ==> s[i] in chars
    ensures var r := Strip(s, chars);
      forall i :: k + |r| <= i < |s| ==> s[i] in chars
  {
    var l := LStrip(s, chars);
    var r := RStrip(l, chars);
    k := |s| - |l|;
    assert s[k..] == l;
    assert r == l[..|r|];
    assert s[k..k + |r|] == s[k..][..|r|];
  }

  /** Stripping twice strips nothing more. */
  lemma {:induction false} StripIdempotent(s: string, chars: set<char>)
    ensures Strip(Strip(s, chars), chars) == Strip(s, chars)
  {
    var r := Strip(s, chars);
    var _ := StripShape(s, chars);
    assert LStrip(r, chars) == r;
    assert RStrip(r, chars) == r;
  }

  // ---------------------------------------------------------------------
  // digits, int() and str()

  predicate IsDigit(c: char) { '0' <= c <= '9' }

  predicate AllDigits(s: string) { forall i :: 0 <= i < |s| ==> IsDigit(s[i]) }

  function DigitValue(c: char): (d: nat)
    requires IsDigit(c)
    ensures d < 10
  {
    (c - '0') as nat
  }

  function DigitChar(d: nat): (c: char)
    requires d < 10
    ensures IsDigit(c) && DigitValue(c) == d
  {
    ('0' as int + d) as char
  }

  /** The number a run of decimal digits denotes. */
  function DigitsValue(s: string): nat
    requires AllDigits(s)
  {
    if s == [] then 0 else DigitsValue(s[..|s| - 1]) * 10 + DigitValue(s[|s| - 1])
  }

  /** Python's `str(n)` for a non-negative integer. */
  function NatToString(n: nat): (s: string)
    ensures 1 <= |s| && AllDigits(s)
    ensures DigitsValue(s) == n
    ensures |s| > 1 ==> s[0] != '0'
    decreases n
  {
    if n < 10 then [DigitChar(n)]
    else
      var p := NatToString(n / 10);
      var s := p + [DigitChar(n % 10)];
      assert s[..|s| - 1] == p;
      s
  }

  /** `'%0*d' % (width, n)` for a non-negative n. */
  function ZeroPad(n: nat, width: nat): (s: string)
    ensures width <= |s| && AllDigits(s) && DigitsValue(s) == n
  {
    var digits := NatToString(n);
    if |digits| < width then Zeros(width - |digits|, digits) else digits
  }

  function Zeros(k: nat, digits: string): (s: string)
    requires AllDigits(digits)
    ensures |s| == k + |digits| && AllDigits(s) && DigitsValue(s) == DigitsValue(digits)
    decreases k
  {
    if k == 0 then digits
    else
      var s := Zeros(k - 1, ['0'] + digits);
      LeadingZero(digits);
      s
  }

  lemma {:induction false} LeadingZero(digits: string)
    requires AllDigits(digits)
    ensures AllDigits(['0'] + digits) && DigitsValue(['0'] + digits) == DigitsValue(digits)
    decreases |digits|
  {
    var z := ['0'] + digits;
    if digits != [] {
      assert z[..|z| - 1] == ['0'] + digits[..|digits| - 1];
      LeadingZero(digits[..|digits| - 1]);
    }
  }

  /** The whitespace Python's byte-string `int()` and `strip()` skip. */
  predicate IsAsciiSpace(c: char)
  {
    c == ' ' || '\t' <= c <= '\r'
  }

  const AsciiWhitespace: set<char> := set c: char | '\t' <= c <= ' ' && IsAsciiSpace(c)

  /** Python's `int(s)`: optional surrounding whitespace, an optional
      sign and at least one decimal digit; None where Python raises
      ValueError. */
  function ParseInt(s: string): Option<int>
  {
    var t := Strip(s, AsciiWhitespace);
    if t == [] then None
    else
      var body := if t[0] == '-' || t[0] == '+' then t[1..] else t;
      if body == [] || !AllDigits(body) then None
      else if t[0] == '-' then Some(-(DigitsValue(body) as int))
      else Some(DigitsValue(body))
  }

  lemma {:induction false} ParseIntOfString(n: nat)
    ensures ParseInt(NatToString(n)) == Some(n)
  {
    var s := NatToString(n);
    assert LStrip(s, AsciiWhitespace) == s;
    assert RStrip(s, AsciiWhitespace) == s;
  }

  /** `int()` reads a run of decimal digits as its value. */
  lemma ParseIntDigits(s: string)
    requires s != [] && AllDigits(s)
    ensures ParseInt(s) == Some(DigitsValue(s))
  {
    assert s[0] !in AsciiWhitespace && s[|s| - 1] !in AsciiWhitespace;
    assert LStrip(s, AsciiWhitespace) == s;
    assert RStrip(s, AsciiWhitespace) == s;
  }

  // ---------------------------------------------------------------------
  // split and rsplit

  /** Python's `s.split(sep)` for a one-character separator. */
  function Split(s: string, sep: char): (parts: seq<string>)
    ensures |parts| >= 1
    ensures forall k :: 0 <= k < |parts| ==> sep !in parts[k]
    decreases |s|
  {
    if sep !in s then [s]
    else
      var i := IndexOf(s, sep);
      [s[..i]] + Split(s[i + 1..], sep)
  }

  function Join(parts: seq<string>, sep: char): string
    requires |parts| >= 1
  {
    if |parts| == 1 then parts[0] else parts[0] + [sep] + Join(parts[1..], sep)
  }

  /** Splitting loses nothing: joining the parts back gives the text. */
  lemma {:induction false} JoinSplit(s: string, sep: char)
    ensures Join(Split(s, sep), sep) == s
    decreases |s|
  {
    if sep in s {
      var i := IndexOf(s, sep);
      var rest := Split(s[i + 1..], sep);
      assert Split(s, sep) == [s[..i]] + rest;
      assert ([s[..i]] + rest)[1..] == rest;
      JoinSplit(s[i + 1..], sep);
      assert s == s[..i] + [sep] + s[i + 1..];
    }
  }

  /** Splitting at a separator the first piece does not hold. */
  lemma SplitFirst(a: string, rest: string, sep: char)
    requires sep !in a
    ensures Split(a + [sep] + rest, sep) == [a] + Split(rest, sep)
  {
    var s := a + [sep] + rest;
    assert s[|a|] == sep;
    var i := IndexOf(s, sep);
    assert s[..|a|] == a;
    assert s[i + 1..] == rest;
  }

  /** Joining pieces that do not hold the separator and splitting again
      gives the pieces back. */
  lemma {:induction false} SplitJoin(parts: seq<string>, sep: char)
    requires |parts| >= 1 && forall k :: 0 <= k < |parts| ==> sep !in parts[k]
    ensures Split(Join(parts, sep), sep) == parts
    decreases |parts|
  {
    if |parts| > 1 {
      SplitJoin(parts[1..], sep);
      SplitFirst(parts[0], Join(parts[1..], sep), sep);
      assert [parts[0]] + parts[1..] == parts;
    }
  }

  function IndexOf(s: string, c: char): (i: nat)
    requires c in s
    ensures i < |s| && s[i] == c && c !in s[..i]
  {
    if s[0] == c then 0 else 1 + IndexOf(s[1..], c)
  }

  /** Python's `s.rsplit(sep, 1)`: the text before and after the last
      separator, or None when there is no separator (a one-element list
      in Python, whose `[1]` raises IndexError). */
  function RSplitLast(s: string, sep: char): (r: Option<(string, string)>)
    ensures r.None? <==> sep !in s
    ensures r.Some? ==> s == r.value.0 + [sep] + r.value.1 && sep !in r.value.1
    decreases |s|
  {
    if s == [] then None
    else if s[|s| - 1] == sep then Some((s[..|s| - 1], []))
    else
      match RSplitLast(s[..|s| - 1], sep)
      case None => None
      case Some((before, after)) =>
        assert s == s[..|s| - 1] + [s[|s| - 1]];
        Some((before, after + [s[|s| - 1]]))
  }

  // ---------------------------------------------------------------------
  // dictionary items

  /** `keys` lists every option exactly once, in the order the dictionary
      yields its items. */
  predicate ItemOrder(options: map<string, string>, keys: seq<string>)
  {
    |keys| >= 1
    && (forall i :: 0 <= i < |keys| ==> keys[i] in options)
    && (forall k :: k in options ==> k in keys)
    && (forall i, j :: 0 <= i < j < |keys| ==> keys[i] != keys[j])
  }

  /** A duplicate-free listing of a map's keys is as long as the map. */
  lemma {:induction false} KeysCount(options: map<string, string>, keys: seq<string>)
    requires forall i :: 0 <= i < |keys| ==> keys[i] in options
    requires forall k :: k in options ==> k in keys
    requires forall i, j :: 0 <= i < j < |keys| ==> keys[i] != keys[j]
    ensures |keys| == |options|
    decreases |keys|
  {
    if keys == [] {
      assert options == map[];
    } else {
      var rest := options - {keys[0]};
      var tail := keys[1..];
      forall k | k in rest
        ensures k in tail
      {
        var i :| 0 <= i < |keys| && keys[i] == k;
        assert i != 0;
        assert tail[i - 1] == k;
      }
      KeysCount(rest, tail);
    }
  }
}
