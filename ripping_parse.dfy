/** The field-splitting half of the Ripping Records import: cleaning a
    spreadsheet cell, the three regular expressions (date cell, venue and
    promoter cell, price and information cell), the month header rows,
    and the scraped-gig record built from one row.

    Each regular expression is modelled by the match Python's backtracking
    engine returns: the first success in the order the pattern tries its
    alternatives.  Python's `$` matches at the end of the text or just
    before a final newline, and `.` matches anything but a newline. */
module RippingParse {
  import opened Base
  import opened Dates

  /** Where `$` may match: the end, or just before a final newline. */
  predicate AtEnd(r: string)
  {
    r == "" || r == "\n"
  }

  /** No newline except possibly as the last character. */
  predicate OneLine(s: string)
  {
    forall i :: 0 <= i < |s| - 1 ==> s[i] != '\n'
  }

  predicate IsUpper(c: char) { 'A' <= c <= 'Z' }

  predicate IsAsciiLetter(c: char) { 'A' <= c <= 'Z' || 'a' <= c <= 'z' }

  /** ASCII upper-casing, the folding `re.IGNORECASE` applies to a byte pattern. */
  function UpperChar(c: char): (u: char)
    ensures 'a' <= c <= 'z' ==> IsUpper(u)
    ensures !('a' <= c <= 'z') ==> u == c
  {
    if 'a' <= c <= 'z' then (c as int - 32) as char else c
  }

  /** Case-insensitive equality of two texts. */
  predicate SameIgnoringCase(a: string, b: string)
  {
    |a| == |b| && forall i :: 0 <= i < |a| ==> UpperChar(a[i]) == UpperChar(b[i])
  }

  // ---------------------------------------------------------------------
  // _make_usable_string

  /** Every character is ASCII.  A cell is the byte string the CSV reader
      yields, one character per byte. */
  predicate IsAscii(s: string)
  {
    forall i :: 0 <= i < |s| ==> s[i] as int < 128
  }

  /** `_make_usable_string`: `unicode(str)` decodes the cell with the ASCII
      codec, so a byte of 0x80 or more raises UnicodeDecodeError (`None`
      here).  On ASCII text NFKD and the `ignore` encoding change nothing,
      and the emphasis asterisks are stripped from both ends. */
  function MakeUsable(s: string): (r: Option<string>)
    ensures r.Some? <==> IsAscii(s)
    ensures r.Some? ==> IsAscii(r.value)
    ensures r.Some? ==> r.value == [] || (r.value[0] != '*' && r.value[|r.value| - 1] != '*')
  {
    if IsAscii(s) then Some(Strip(s, {'*'})) else None
  }

  /** The cleaned text is the piece of the cell starting at `k`, and all
      that was cut off around it is asterisks. */
  lemma MakeUsableShape(s: string) returns (k: nat)
    requires IsAscii(s)
    ensures var c := MakeUsable(s).value;
      && k + |c| <= |s| && s[k..k + |c|] == c
      && (forall i :: 0 <= i < k ==> s[i] == '*')
      && (forall i :: k + |c| <= i < |s| ==> s[i] == '*')
  {
    k := StripShape(s, {'*'});
  }

  /** Cleaning a clean cell changes nothing. */
  lemma MakeUsableIdempotent(s: string)
    ensures MakeUsable(s).Some? ==> MakeUsable(MakeUsable(s).value) == MakeUsable(s)
  {
    if IsAscii(s) {
      StripIdempotent(s, {'*'});
    }
  }

  // ---------------------------------------------------------------------
  // VENUE_AND_PROMOTER_RE: ^(?P<venue>.+?)( (?P<town>[Edinburgh|Glasgow]+))?( (?P<promoter>[A-Z]{1,3}))?$

  /** The character class `[Edinburgh|Glasgow]`: a set of letters (and a
      bar), not a choice between two town names. */
  const TownChars: set<char> := {'E', 'd', 'i', 'n', 'b', 'u', 'r', 'g', 'h', '|', 'G', 'l', 'a', 's', 'o', 'w'}

  predicate IsTownText(t: string)
  {
    |t| >= 1 && forall i :: 0 <= i < |t| ==> t[i] in TownChars
  }

  predicate IsPromoterCode(p: string)
  {
    1 <= |p| <= 3 && forall i :: 0 <= i < |p| ==> IsUpper(p[i])
  }

  /** `text` matches the start of `r` and `$` matches right after it. */
  predicate Covers(r: string, text: string)
  {
    text <= r && AtEnd(r[|text|..])
  }

  lemma CoversPrepend(a: string, r: string, text: string)
    requires Covers(r, text)
    ensures Covers(a + r, a + text)
  {
    assert (a + r)[|a + text|..] == r[|text|..];
  }

  /** A covered text without newlines leaves a single line. */
  lemma CoversOneLine(s: string, text: string)
    requires Covers(s, text) && '\n' !in text
    ensures OneLine(s)
  {
    forall i | 0 <= i < |s| - 1 ensures s[i] != '\n' {
      assert s[i] == text[i];
    }
  }

  /** How many leading characters of `s` satisfy the class. */
  function TownRun(s: string): (n: nat)
    ensures n <= |s|
    ensures forall i :: 0 <= i < n ==> s[i] in TownChars
  {
    if s != [] && s[0] in TownChars then 1 + TownRun(s[1..]) else 0
  }

  function UpperRun(s: string): (n: nat)
    ensures n <= |s|
    ensures forall i :: 0 <= i < n ==> IsUpper(s[i])
  {
    if s != [] && IsUpper(s[0]) then 1 + UpperRun(s[1..]) else 0
  }

  /** The run functions count exactly the leading characters in the class. */
  lemma {:induction false} TownRunIs(s: string, n: nat)
    requires n <= |s| && (forall i :: 0 <= i < n ==> s[i] in TownChars) && (n < |s| ==> s[n] !in TownChars)
    ensures TownRun(s) == n
    decreases n
  {
    if n > 0 {
      TownRunIs(s[1..], n - 1);
    }
  }

  lemma {:induction false} UpperRunIs(s: string, n: nat)
    requires n <= |s| && (forall i :: 0 <= i < n ==> IsUpper(s[i])) && (n < |s| ==> !IsUpper(s[n]))
    ensures UpperRun(s) == n
    decreases n
  {
    if n > 0 {
      UpperRunIs(s[1..], n - 1);
    }
  }

  /** What the matched optional groups spell, with their spaces. */
  function TailText(town: Option<string>, promoter: Option<string>): string
  {
    (if town.Some? then [' '] + town.value else []) + (if promoter.Some? then [' '] + promoter.value else [])
  }

  /** The group's `[A-Z]{1,3}` backtracking from `n` letters down to one. */
  function PromoterLetters(r: string, n: nat): (p: Option<string>)
    requires n <= 3 && (n >= 1 ==> |r| >= 1 + n && r[0] == ' ')
    requires forall i :: 1 <= i <= n ==> IsUpper(r[i])
    ensures p.Some? ==> IsPromoterCode(p.value) && Covers(r, [' '] + p.value)
    ensures p.Some? ==> !AtEnd(r)
    decreases n
  {
    if n == 0 then None
    else if AtEnd(r[1 + n..]) then
      assert r[..1 + n] == [' '] + r[1..1 + n];
      Some(r[1..1 + n])
    else PromoterLetters(r, n - 1)
  }

  /** `( (?P<promoter>[A-Z]{1,3}))?$` on the text `r`: Some(Some(p)) when
      the group matches with code p, Some(None) when it is skipped. */
  function PromoterTail(r: string): (m: Option<Option<string>>)
    ensures m == Some(None) <==> AtEnd(r)
    ensures m.Some? ==> Covers(r, TailText(None, m.value))
    ensures m.Some? && m.value.Some? ==> IsPromoterCode(m.value.value)
  {
    var letters := if |r| >= 1 && r[0] == ' ' then UpperRun(r[1..]) else 0;
    match PromoterLetters(r, if letters < 3 then letters else 3)
    case Some(p) => Some(Some(p))
    case None => if AtEnd(r) then Some(None) else None
  }

  /** The town group with `n` class characters, backtracking to fewer. */
  function TownLetters(r: string, n: nat): (m: Option<(Option<string>, Option<string>)>)
    requires |r| >= 1 + n && r[0] == ' '
    requires forall i :: 1 <= i <= n ==> r[i] in TownChars
    ensures m.Some? ==> m.value.0.Some? && IsTownText(m.value.0.value)
    ensures m.Some? ==> Covers(r, TailText(m.value.0, m.value.1))
    ensures m.Some? && m.value.1.Some? ==> IsPromoterCode(m.value.1.value)
    decreases n
  {
    if n == 0 then None
    else match PromoterTail(r[1 + n..])
      case Some(p) =>
        TownCovers(r, n, p);
        Some((Some(r[1..1 + n]), p))
      case None => TownLetters(r, n - 1)
  }

  /** A town run followed by a promoter tail covers the text. */
  lemma TownCovers(r: string, n: nat, p: Option<string>)
    requires 1 <= n && |r| >= 1 + n && r[0] == ' '
    requires Covers(r[1 + n..], TailText(None, p))
    ensures Covers(r, TailText(Some(r[1..1 + n]), p))
  {
    var head := r[..1 + n];
    assert r == head + r[1 + n..];
    assert head == [' '] + r[1..1 + n];
    CoversPrepend(head, r[1 + n..], TailText(None, p));
    assert TailText(Some(r[1..1 + n]), p) == head + TailText(None, p);
  }

  /** Both optional groups and `$` on the text after the venue: the town
      group is tried first, with its longest run first. */
  function Tail(r: string): (m: Option<(Option<string>, Option<string>)>)
    ensures AtEnd(r) ==> m == Some((None, None))
    ensures m.Some? ==> Covers(r, TailText(m.value.0, m.value.1))
    ensures m.Some? && m.value.0.Some? ==> IsTownText(m.value.0.value)
    ensures m.Some? && m.value.1.Some? ==> IsPromoterCode(m.value.1.value)
  {
    var viaTown := if |r| >= 1 && r[0] == ' ' then TownLetters(r, TownRun(r[1..])) else None;
    if viaTown.Some? then viaTown
    else match PromoterTail(r)
      case Some(p) => Some((None, p))
      case None => None
  }

  /** The three groups of a venue cell. */
  datatype VenueParts = VenueParts(venue: string, town: Option<string>, promoter: Option<string>)

  /** The lazy venue group `.+?` read literally: the first `k` characters,
      then one more each time the rest is not a tail. */
  function LazyVenueFrom(s: string, k: nat): Option<VenueParts>
    requires 1 <= k
    decreases |s| - k
  {
    if k > |s| || s[k - 1] == '\n' then None
    else match Tail(s[k..])
      case Some((town, promoter)) => Some(VenueParts(s[..k], town, promoter))
      case None => LazyVenueFrom(s, k + 1)
  }

  /** The lazy venue group, taking a character without trying the tail
      where no tail can start (VenueFromIsLazy). */
  function VenueFrom(s: string, k: nat): Option<VenueParts>
    requires 1 <= k
    decreases |s| - k, 1
  {
    if k > |s| || s[k - 1] == '\n' then None
    else if k < |s| && s[k] != ' ' && s[k] != '\n' then VenueFrom(s, k + 1)
    else VenueAt(s, k)
  }

  /** The venue group stops after `k` characters if the rest is a tail. */
  function VenueAt(s: string, k: nat): Option<VenueParts>
    requires 1 <= k <= |s|
    decreases |s| - k, 0
  {
    match Tail(s[k..])
      case Some((town, promoter)) => Some(VenueParts(s[..k], town, promoter))
      case None => VenueFrom(s, k + 1)
  }

  /** `VENUE_AND_PROMOTER_RE.match(s)`; None where Python gets no match. */
  function MatchVenueAndPromoter(s: string): Option<VenueParts>
  {
    VenueFrom(s, 1)
  }

  /** The text a venue match covers. */
  function VenueText(v: VenueParts): string
  {
    v.venue + TailText(v.town, v.promoter)
  }

  /** A match splits the cell exactly: a non-empty single-line venue, then
      the optional town and promoter with their spaces, then the end. */
  lemma {:induction false} VenueMatchSplits(s: string, k: nat)
    requires 1 <= k && forall i :: 0 <= i < k - 1 && i < |s| ==> s[i] != '\n'
    requires VenueFrom(s, k).Some?
    ensures var v := VenueFrom(s, k).value;
      && |v.venue| >= 1 && '\n' !in v.venue
      && (v.town.Some? ==> IsTownText(v.town.value))
      && (v.promoter.Some? ==> IsPromoterCode(v.promoter.value))
      && Covers(s, VenueText(v))
    decreases |s| - k
  {
    if k < |s| && s[k] != ' ' && s[k] != '\n' {
      VenueMatchSplits(s, k + 1);
    } else {
      var t := Tail(s[k..]);
      if t.Some? {
        VenueMatchHere(s, k, t.value.0, t.value.1);
      } else {
        VenueMatchSplits(s, k + 1);
      }
    }
  }

  /** The lazy venue group stops where the rest of the cell is a tail. */
  lemma VenueMatchHere(s: string, k: nat, town: Option<string>, promoter: Option<string>)
    requires 1 <= k <= |s| && forall i :: 0 <= i < k ==> s[i] != '\n'
    requires Tail(s[k..]) == Some((town, promoter))
    ensures '\n' !in s[..k]
    ensures Covers(s, VenueText(VenueParts(s[..k], town, promoter)))
  {
    assert s == s[..k] + s[k..];
    CoversPrepend(s[..k], s[k..], TailText(town, promoter));
  }

  /** Neither a town nor a promoter code holds a newline. */
  lemma TailTextOneLine(town: Option<string>, promoter: Option<string>)
    requires town.Some? ==> IsTownText(town.value)
    requires promoter.Some? ==> IsPromoterCode(promoter.value)
    ensures '\n' !in TailText(town, promoter)
  {
    var t := TailText(town, promoter);
    var a := if town.Some? then [' '] + town.value else [];
    assert t == a + (if promoter.Some? then [' '] + promoter.value else []);
    forall i | 0 <= i < |t| ensures t[i] != '\n' {
      if i >= 1 && i < |a| {
        assert t[i] == town.value[i - 1];
      } else if i >= |a| + 1 {
        assert t[i] == promoter.value[i - |a| - 1];
      }
    }
  }

  /** The lazy venue group reaches the end of a single-line text. */
  lemma {:induction false} VenueFromSucceeds(s: string, k: nat, last: nat)
    requires OneLine(s) && 1 <= k <= last <= |s| && AtEnd(s[last..])
    requires last == |s| ==> s[last - 1] != '\n'
    ensures VenueFrom(s, k).Some?
    decreases last - k
  {
    assert s[k - 1] != '\n';
    if k == last {
      assert AtEnd(s[k..]);
    }
    if Tail(s[k..]).None? {
      VenueFromSucceeds(s, k + 1, last);
    }
  }

  /** The venue cell matches exactly when it is one non-blank line. */
  lemma VenueMatchIff(s: string)
    ensures MatchVenueAndPromoter(s).Some? <==> OneLine(s) && s != "" && s != "\n"
  {
    if MatchVenueAndPromoter(s).Some? {
      VenueMatchSplits(s, 1);
      var v := MatchVenueAndPromoter(s).value;
      TailTextOneLine(v.town, v.promoter);
      assert '\n' !in VenueText(v);
      CoversOneLine(s, VenueText(v));
    } else if OneLine(s) && s != "" && s != "\n" {
      var last := if s[|s| - 1] == '\n' then |s| - 1 else |s|;
      VenueFromSucceeds(s, 1, last);
    }
  }

  // ---------------------------------------------------------------------
  // PRICE_RE: ^\??(?P<price>\d{1,}\.\d{2})?(/\?\d{1,}\.\d{2})? ?(?P<status>SOLD OUT|CANCELLED)? ?(?P<info>.+?)?$

  datatype Status = SoldOut | Cancelled

  function StatusText(st: Status): string
  {
    match st
    case SoldOut => "SOLD OUT"
    case Cancelled => "CANCELLED"
  }

  /** The text an optional group matched: itself, or nothing. */
  function OptText(o: Option<string>): string
  {
    if o.Some? then o.value else ""
  }

  /** What one step of the match consumed, and the text left after it. */
  datatype Step<T> = Step(group: T, rest: string)

  function DigitRun(s: string): (n: nat)
    ensures n <= |s|
    ensures forall i :: 0 <= i < n ==> IsDigit(s[i])
  {
    if s != [] && IsDigit(s[0]) then 1 + DigitRun(s[1..]) else 0
  }

  lemma {:induction false} DigitRunIs(s: string, n: nat)
    requires n <= |s| && (forall i :: 0 <= i < n ==> IsDigit(s[i])) && (n < |s| ==> !IsDigit(s[n]))
    ensures DigitRun(s) == n
    decreases n
  {
    if n > 0 {
      DigitRunIs(s[1..], n - 1);
    }
  }

  /** An amount `\d{1,}\.\d{2}`. */
  predicate IsAmount(a: string)
  {
    && |a| >= 4 && a[|a| - 3] == '.' && IsDigit(a[|a| - 2]) && IsDigit(a[|a| - 1])
    && forall i :: 0 <= i < |a| - 3 ==> IsDigit(a[i])
  }

  /** An optional literal character: `\??` and ` ?`. */
  function OptChar(c: char, s: string): (m: Step<bool>)
    ensures s == (if m.group then [c] else "") + m.rest
  {
    if |s| >= 1 && s[0] == c then Step(true, s[1..]) else Step(false, s)
  }

  /** `(\d{1,}\.\d{2})?`: the amount at the start of `s`, if any.
      Backtracking the digit run cannot help: a shorter run is followed
      by a digit, not the point. */
  function OptAmount(s: string): (m: Step<Option<string>>)
    ensures m.group.Some? ==> IsAmount(m.group.value) && '\n' !in m.group.value
    ensures s == OptText(m.group) + m.rest
  {
    var n := DigitRun(s);
    if n >= 1 && n + 3 <= |s| && s[n] == '.' && IsDigit(s[n + 1]) && IsDigit(s[n + 2])
    then
      var a := s[..n + 3];
      assert forall i :: 0 <= i < |a| ==> a[i] != '\n' by {
        forall i | 0 <= i < |a| ensures a[i] != '\n' {
          assert a[i] == s[i];
        }
      }
      assert s == a + s[n + 3..];
      Step(Some(a), s[n + 3..])
    else Step(None, s)
  }

  /** `(/\?\d{1,}\.\d{2})?`: a second amount, kept here only to be dropped. */
  function OptSecond(s: string): (m: Step<Option<string>>)
    ensures m.group.Some? ==> IsAmount(m.group.value) && '\n' !in m.group.value
    ensures s == (if m.group.Some? then "/?" + m.group.value else "") + m.rest
  {
    if |s| >= 2 && s[0] == '/' && s[1] == '?' then
      var a := OptAmount(s[2..]);
      if a.group.Some? then
        assert s == "/?" + s[2..];
        Step(a.group, a.rest)
      else Step(None, s)
    else Step(None, s)
  }

  /** `(SOLD OUT|CANCELLED)?`, matched case-sensitively. */
  function OptStatus(s: string): (m: Step<Option<Status>>)
    ensures s == (if m.group.Some? then StatusText(m.group.value) else "") + m.rest
    ensures m.group == Some(SoldOut) <==> "SOLD OUT" <= s
    ensures m.group == Some(Cancelled) <==> "CANCELLED" <= s
  {
    if "SOLD OUT" <= s then
      assert s == s[..8] + s[8..];
      assert !("CANCELLED" <= s) by { assert s[0] == 'S'; }
      Step(Some(SoldOut), s[8..])
    else if "CANCELLED" <= s then
      assert s == s[..9] + s[9..];
      Step(Some(Cancelled), s[9..])
    else Step(None, s)
  }

  /** `(.+?)?$`: the rest of a single line, without its final newline. */
  function OptInfo(s: string): (m: Option<Step<Option<string>>>)
    ensures m.Some? <==> OneLine(s)
    ensures m.Some? ==> s == OptText(m.value.group) + m.value.rest && AtEnd(m.value.rest)
    ensures m.Some? && m.value.group.Some? ==> m.value.group.value != "" && '\n' !in m.value.group.value
  {
    if !OneLine(s) then None
    else
      var n := if |s| >= 1 && s[|s| - 1] == '\n' then |s| - 1 else |s|;
      assert s == s[..n] + s[n..];
      assert forall i :: 0 <= i < n ==> s[..n][i] != '\n';
      Some(Step(if n == 0 then None else Some(s[..n]), s[n..]))
  }

  /** On text without any newline, the information group takes it all. */
  lemma OptInfoOfLine(s: string)
    requires '\n' !in s
    ensures OptInfo(s) == Some(Step(if s == "" then None else Some(s), ""))
  {
    assert OneLine(s);
    assert s[..|s|] == s;
  }

  /** Every group of one PRICE_RE match, in order, with what `$` left. */
  datatype PriceMatch = PriceMatch(
    query: bool, price: Option<string>, second: Option<string>, space1: bool,
    status: Option<Status>, space2: bool, info: Option<string>, end: string)

  function SpaceText(b: bool): string { if b then " " else "" }

  /** The text a match covers, reassembled from its groups. */
  function PriceMatchText(m: PriceMatch): string
  {
    (if m.query then "?" else "")
    + (OptText(m.price)
    + ((if m.second.Some? then "/?" + m.second.value else "")
    + (SpaceText(m.space1)
    + ((if m.status.Some? then StatusText(m.status.value) else "")
    + (SpaceText(m.space2)
    + (OptText(m.info) + m.end))))))
  }

  /** Each group holds text its sub-pattern accepts. */
  predicate PriceMatchWellFormed(m: PriceMatch)
  {
    && (m.price.Some? ==> IsAmount(m.price.value))
    && (m.second.Some? ==> IsAmount(m.second.value))
    && (m.info.Some? ==> m.info.value != "" && '\n' !in m.info.value)
    && AtEnd(m.end)
  }

  /** `PRICE_RE.match(s)`: the greedy first path.  It fails only when
      `.+?` meets a newline before the end, and then every other path
      fails too, because the earlier groups never consume a newline. */
  function MatchPrice(s: string): (r: Option<PriceMatch>)
  {
    var q := OptChar('?', s);
    var p := OptAmount(q.rest);
    var d := OptSecond(p.rest);
    var sp1 := OptChar(' ', d.rest);
    var st := OptStatus(sp1.rest);
    var sp2 := OptChar(' ', st.rest);
    match OptInfo(sp2.rest)
    case None => None
    case Some(i) =>
      Some(PriceMatch(q.group, p.group, d.group, sp1.group, st.group, sp2.group, i.group, i.rest))
  }

  /** A price match covers the whole cell and each group is well formed. */
  lemma MatchPriceSplits(s: string)
    requires MatchPrice(s).Some?
    ensures PriceMatchWellFormed(MatchPrice(s).value)
    ensures PriceMatchText(MatchPrice(s).value) == s
  {
    var q := OptChar('?', s);
    var p := OptAmount(q.rest);
    var d := OptSecond(p.rest);
    var sp1 := OptChar(' ', d.rest);
    var st := OptStatus(sp1.rest);
    var sp2 := OptChar(' ', st.rest);
    var i := OptInfo(sp2.rest).value;
    var m := PriceMatch(q.group, p.group, d.group, sp1.group, st.group, sp2.group, i.group, i.rest);
    assert MatchPrice(s) == Some(m);
    var t6 := OptText(i.group) + i.rest;
    assert sp2.rest == t6;
    var t5 := SpaceText(sp2.group) + t6;
    assert st.rest == t5;
    var t4 := (if st.group.Some? then StatusText(st.group.value) else "") + t5;
    assert sp1.rest == t4;
    var t3 := SpaceText(sp1.group) + t4;
    assert d.rest == t3;
    var t2 := (if d.group.Some? then "/?" + d.group.value else "") + t3;
    assert p.rest == t2;
    var t1 := OptText(p.group) + t2;
    assert q.rest == t1;
    assert PriceMatchText(m) == (if q.group then "?" else "") + t1;
  }

  /** The price cell matches exactly when no newline comes before its
      last character. */
  lemma MatchPriceIff(s: string)
    ensures MatchPrice(s).Some? <==> OneLine(s)
  {
    var q := OptChar('?', s);
    var p := OptAmount(q.rest);
    var d := OptSecond(p.rest);
    var sp1 := OptChar(' ', d.rest);
    var st := OptStatus(sp1.rest);
    var sp2 := OptChar(' ', st.rest);
    if st.group.Some? { StatusTextOneLine(st.group.value); }
    if d.group.Some? { SecondTextOneLine(d.group.value); }
    OneLineAfter(SpaceText(sp2.group), sp2.rest);
    OneLineAfter(if st.group.Some? then StatusText(st.group.value) else "", st.rest);
    OneLineAfter(SpaceText(sp1.group), sp1.rest);
    OneLineAfter(if d.group.Some? then "/?" + d.group.value else "", d.rest);
    OneLineAfter(OptText(p.group), p.rest);
    OneLineAfter(if q.group then "?" else "", q.rest);
  }

  lemma StatusTextOneLine(st: Status)
    ensures '\n' !in StatusText(st)
  {
  }

  lemma SecondTextOneLine(a: string)
    requires '\n' !in a
    ensures '\n' !in "/?" + a
  {
  }

  /** A line with a newline-free head is single-line exactly when its
      remainder is. */
  lemma OneLineAfter(head: string, rest: string)
    requires '\n' !in head
    ensures OneLine(head + rest) <==> OneLine(rest)
  {
    var s := head + rest;
    if OneLine(rest) {
      forall i | 0 <= i < |s| - 1 ensures s[i] != '\n' {
        if i < |head| { assert s[i] == head[i]; } else { assert s[i] == rest[i - |head|]; }
      }
    }
    if OneLine(s) {
      forall i | 0 <= i < |rest| - 1 ensures rest[i] != '\n' {
        assert rest[i] == s[i + |head|];
      }
    }
  }

  // ---------------------------------------------------------------------
  // DATE_RE: [a-z]{3} (?P<day>\d+)[a-z]{2} with re.IGNORECASE

  /** The day digits of a date cell such as "mon 18th"; only the start of
      the text has to match. */
  function MatchDateDay(s: string): (day: Option<string>)
    ensures day.Some? ==> |day.value| >= 1 && AllDigits(day.value)
    ensures day.Some? ==> 4 + |day.value| + 2 <= |s| && s[4..4 + |day.value|] == day.value
  {
    if |s| >= 4 && IsAsciiLetter(s[0]) && IsAsciiLetter(s[1]) && IsAsciiLetter(s[2]) && s[3] == ' '
    then
      var n := DigitRun(s[4..]);
      if n >= 1 && 4 + n + 2 <= |s| && IsAsciiLetter(s[4 + n]) && IsAsciiLetter(s[4 + n + 1])
      then
        assert forall i :: 0 <= i < n ==> s[4..4 + n][i] == s[4..][i];
        Some(s[4..4 + n])
      else None
    else None
  }

  // ---------------------------------------------------------------------
  // MONTHS and MONTH_RE: ^\*(?P<month>JANUARY|...|DECEMBER) .+\*$ with re.IGNORECASE

  const MonthNames: seq<string> := ["JANUARY", "FEBRUARY", "MARCH", "APRIL", "MAY", "JUNE",
    "JULY", "AUGUST", "SEPTEMBER", "OCTOBER", "NOVEMBER", "DECEMBER"]

  /** `MONTHS[name]`: an exact, upper-case lookup (KeyError otherwise). */
  function MonthNumber(name: string): (m: Option<int>)
    ensures m.Some? ==> 1 <= m.value <= 12 && MonthNames[m.value - 1] == name
    ensures m.None? ==> name !in MonthNames
  {
    MonthFrom(name, 0)
  }

  function MonthFrom(name: string, i: nat): (m: Option<int>)
    requires i <= 12
    ensures m.Some? ==> i + 1 <= m.value <= 12 && MonthNames[m.value - 1] == name
    ensures m.None? ==> forall j :: i <= j < 12 ==> MonthNames[j] != name
    decreases 12 - i
  {
    if i == 12 then None
    else if MonthNames[i] == name then Some(i + 1)
    else MonthFrom(name, i + 1)
  }

  /** ` .+\*$` after the month name: one or more single-line characters,
      an asterisk, then the end. */
  predicate HeaderTail(r: string)
  {
    var body := if |r| >= 1 && r[|r| - 1] == '\n' then r[..|r| - 1] else r;
    |body| >= 2 && body[|body| - 1] == '*' && '\n' !in body
  }

  /** `MONTH_RE.match(cell)`: the month group as written in the cell. No
      month name is a prefix of another, so at most one alternative can be
      followed by the space and the order they are tried in is immaterial. */
  function MatchMonthHeader(cell: string): (m: Option<string>)
    ensures m.Some? ==> exists j :: 0 <= j < 12 && SameIgnoringCase(m.value, MonthNames[j])
  {
    MonthHeaderFrom(cell, 0)
  }

  function MonthHeaderFrom(cell: string, j: nat): (m: Option<string>)
    requires j <= 12
    ensures m.Some? ==> exists k :: j <= k < 12 && SameIgnoringCase(m.value, MonthNames[k])
    decreases 12 - j
  {
    if j == 12 then None
    else
      var name := MonthNames[j];
      if |cell| >= |name| + 2 && cell[0] == '*' && SameIgnoringCase(cell[1..1 + |name|], name)
         && cell[1 + |name|] == ' ' && HeaderTail(cell[2 + |name|..])
      then Some(cell[1..1 + |name|])
      else MonthHeaderFrom(cell, j + 1)
  }

  // ---------------------------------------------------------------------
  // RippedGig

  datatype RippedGig = RippedGig(
    artist: string, venue: string, town: Option<string>, promoter: Option<string>,
    date: Date, price: Option<string>, info: Option<string>, soldOut: bool, cancelled: bool)

  /** Why a gig row could not be read: the UnicodeDecodeError of a cell
      with a non-ASCII byte, or the AttributeError of a failed venue or
      price match. */
  datatype CellError =
    | UndecodableCell(cell: string)
    | VenueCellUnmatched(cell: string)
    | PriceCellUnmatched(cell: string)

  /** `RippedGig(artist, venue_and_promoter, date, price_and_info)`. */
  function MakeRippedGig(artist: string, venueAndPromoter: string, date: Date, priceAndInfo: string)
    : (r: Result<RippedGig, CellError>)
    // the constructor's order: artist cleaned, venue cell cleaned and
    // matched, then price cell cleaned and matched; the first failure raises
    ensures !IsAscii(artist) ==> r == Err(UndecodableCell(artist))
    ensures IsAscii(artist) && !IsAscii(venueAndPromoter) ==> r == Err(UndecodableCell(venueAndPromoter))
    ensures (&& IsAscii(artist) && IsAscii(venueAndPromoter)
             && MatchVenueAndPromoter(Strip(venueAndPromoter, {'*'})).None?)
            ==> r == Err(VenueCellUnmatched(venueAndPromoter))
    ensures (&& IsAscii(artist) && IsAscii(venueAndPromoter) && !IsAscii(priceAndInfo)
             && MatchVenueAndPromoter(Strip(venueAndPromoter, {'*'})).Some?)
            ==> r == Err(UndecodableCell(priceAndInfo))
    ensures (&& IsAscii(artist) && IsAscii(venueAndPromoter) && IsAscii(priceAndInfo)
             && MatchVenueAndPromoter(Strip(venueAndPromoter, {'*'})).Some?
             && MatchPrice(Strip(priceAndInfo, {'*'})).None?)
            ==> r == Err(PriceCellUnmatched(priceAndInfo))
    ensures r.Ok? ==> MakeUsable(artist) == Some(r.value.artist) && r.value.date == date
    // venue, town and promoter are the groups of the venue match
    ensures r.Ok? ==> && MakeUsable(venueAndPromoter).Some?
                      && MatchVenueAndPromoter(MakeUsable(venueAndPromoter).value)
                           == Some(VenueParts(r.value.venue, r.value.town, r.value.promoter))
    // price and info are groups of the price match; the flags follow its
    // status group, so at most one is set
    ensures r.Ok? ==> && MakeUsable(priceAndInfo).Some?
                      && (var m := MatchPrice(MakeUsable(priceAndInfo).value);
                          && m.Some?
                          && r.value.price == m.value.price
                          && r.value.info == m.value.info
                          && (r.value.soldOut <==> m.value.status == Some(SoldOut))
                          && (r.value.cancelled <==> m.value.status == Some(Cancelled)))
    ensures r.Ok? ==> !(r.value.soldOut && r.value.cancelled)
  {
    match MakeUsable(artist)
    case None => Err(UndecodableCell(artist))
    case Some(a) =>
      match MakeUsable(venueAndPromoter)
      case None => Err(UndecodableCell(venueAndPromoter))
      case Some(venueCell) =>
        match MatchVenueAndPromoter(venueCell)
        case None => Err(VenueCellUnmatched(venueAndPromoter))
        case Some(v) =>
          match MakeUsable(priceAndInfo)
          case None => Err(UndecodableCell(priceAndInfo))
          case Some(priceCell) =>
            match MatchPrice(priceCell)
            case None => Err(PriceCellUnmatched(priceAndInfo))
            case Some(p) =>
              Ok(RippedGig(a, v.venue, v.town, v.promoter, date, p.price, p.info,
                           p.status == Some(SoldOut), p.status == Some(Cancelled)))
  }

  /** A gig row is read exactly when its three cells are ASCII, its venue
      cell is one non-blank line and its price cell one line, once cleaned. */
  lemma MakeRippedGigSucceeds(artist: string, venueAndPromoter: string, date: Date, priceAndInfo: string)
    ensures var venue := Strip(venueAndPromoter, {'*'});
      MakeRippedGig(artist, venueAndPromoter, date, priceAndInfo).Ok?
      <==> && IsAscii(artist) && IsAscii(venueAndPromoter) && IsAscii(priceAndInfo)
           && OneLine(venue) && venue != "" && venue != "\n"
           && OneLine(Strip(priceAndInfo, {'*'}))
  {
    VenueMatchIff(Strip(venueAndPromoter, {'*'}));
    MatchPriceIff(Strip(priceAndInfo, {'*'}));
  }


  // ---------------------------------------------------------------------
  // Worked cells

  /** How MatchPrice assembles its steps, for working through examples. */
  lemma MatchPriceSteps(s: string, query: bool, price: Option<string>, second: Option<string>,
                        space1: bool, status: Option<Status>, space2: bool, info: Option<string>,
                        r1: string, r2: string, r3: string, r4: string, r5: string, r6: string)
    requires OptChar('?', s) == Step(query, r1) && OptAmount(r1) == Step(price, r2)
    requires OptSecond(r2) == Step(second, r3) && OptChar(' ', r3) == Step(space1, r4)
    requires OptStatus(r4) == Step(status, r5) && OptChar(' ', r5) == Step(space2, r6)
    requires '\n' !in r6 && info == (if r6 == "" then None else Some(r6))
    ensures MatchPrice(s) == Some(PriceMatch(query, price, second, space1, status, space2, info, ""))
  {
    OptInfoOfLine(r6);
  }

  /** No amount starts at a character that is not a digit. */
  lemma NoAmount(s: string)
    requires s == [] || !IsDigit(s[0])
    ensures OptAmount(s) == Step(None, s)
  {
    DigitRunIs(s, 0);
  }

  /** `n` digits, a point and two digits make the amount. */
  lemma AmountAt(s: string, n: nat)
    requires 1 <= n && n + 3 <= |s| && (forall i :: 0 <= i < n ==> IsDigit(s[i]))
    requires s[n] == '.' && IsDigit(s[n + 1]) && IsDigit(s[n + 2])
    ensures OptAmount(s) == Step(Some(s[..n + 3]), s[n + 3..])
  {
    DigitRunIs(s, n);
  }

  /** The worked cells, each split into the pieces its groups match. */
  lemma PriceThenInfoPieces()
    ensures "15.00 Support: X" == "15.00" + " Support: X"
    ensures " Support: X" == " " + "Support: X"
  {
  }

  lemma SecondPricePieces()
    ensures "8.00/?10.00 CANCELLED" == "8.00" + "/?10.00 CANCELLED"
    ensures "/?10.00 CANCELLED" == "/?" + "10.00 CANCELLED"
    ensures "10.00 CANCELLED" == "10.00" + " CANCELLED"
    ensures " CANCELLED" == " " + "CANCELLED"
  {
  }

  lemma VenueCellPieces()
    ensures "Barrowlands Glasgow ABC" == "Barrowlands" + " Glasgow ABC"
    ensures " Glasgow ABC" == " " + "Glasgow ABC"
    ensures "Glasgow ABC" == "Glasgow" + " ABC"
    ensures " ABC" == " " + "ABC"
  {
  }

  /** An amount followed by text that the amount cannot absorb. */
  lemma AmountBefore(a: string, rest: string, n: nat)
    requires |a| == n + 3 && 1 <= n && (forall i :: 0 <= i < n ==> IsDigit(a[i]))
    requires a[n] == '.' && IsDigit(a[n + 1]) && IsDigit(a[n + 2])
    ensures OptAmount(a + rest) == Step(Some(a), rest)
  {
    SliceAppend(a, rest);
    AmountAt(a + rest, n);
  }

  /** No status starts unless the text starts with "C" or "SO". */
  lemma NoStatus(s: string)
    requires s == [] || (s[0] != 'C' && (s[0] != 'S' || |s| < 2 || s[1] != 'O'))
    ensures OptStatus(s) == Step(None, s)
  {
    assert "SOLD OUT"[0] == 'S' && "SOLD OUT"[1] == 'O' && "CANCELLED"[0] == 'C';
  }

  /** A price with information after it: no status. */
  lemma PriceThenInfo(s: string)
    requires s == "15.00 Support: X"
    ensures MatchPrice(s)
            == Some(PriceMatch(false, Some("15.00"), None, true, None, false, Some("Support: X"), ""))
  {
    PriceThenInfoAmount(s);
    PriceThenInfoRest(" Support: X");
    MatchPriceSteps(s, false, Some("15.00"), None, true, None, false, Some("Support: X"),
                    s, " Support: X", " Support: X", "Support: X", "Support: X", "Support: X");
  }

  lemma PriceThenInfoAmount(s: string)
    requires s == "15.00 Support: X"
    ensures OptChar('?', s) == Step(false, s)
    ensures OptAmount(s) == Step(Some("15.00"), " Support: X")
  {
    PriceThenInfoPieces();
    SliceAppend("15.00", " Support: X");
    AmountBefore("15.00", " Support: X", 2);
  }

  lemma PriceThenInfoRest(r: string)
    requires r == " Support: X"
    ensures OptSecond(r) == Step(None, r) && OptChar(' ', r) == Step(true, "Support: X")
    ensures OptStatus("Support: X") == Step(None, "Support: X")
    ensures OptChar(' ', "Support: X") == Step(false, "Support: X") && '\n' !in "Support: X"
  {
    PriceThenInfoPieces();
    SliceAppend(" ", "Support: X");
    var t := "Support: X";
    assert t[0] == 'S' && t[1] == 'u';
    NoStatus(t);
    InfoLine(t);
  }

  lemma InfoLine(t: string)
    requires t == "Support: X"
    ensures '\n' !in t
  {
  }

  /** A bare status: no price and no information. */
  lemma BareStatus(s: string)
    requires s == "SOLD OUT"
    ensures MatchPrice(s)
            == Some(PriceMatch(false, None, None, false, Some(SoldOut), false, None, ""))
  {
    assert s[0] == 'S' && s[1] == 'O';
    NoAmount(s);
    assert s[8..] == "";
    MatchPriceSteps(s, false, None, None, false, Some(SoldOut), false, None, s, s, s, s, "", "");
  }

  /** The second price is matched and dropped. */
  lemma SecondPriceDropped(s: string)
    requires s == "8.00/?10.00 CANCELLED"
    ensures MatchPrice(s)
            == Some(PriceMatch(false, Some("8.00"), Some("10.00"), true, Some(Cancelled), false, None, ""))
  {
    SecondPriceFirst(s);
    SecondPriceSecond("/?10.00 CANCELLED");
    SecondPriceStatus(" CANCELLED");
    MatchPriceSteps(s, false, Some("8.00"), Some("10.00"), true, Some(Cancelled), false, None,
                    s, "/?10.00 CANCELLED", " CANCELLED", "CANCELLED", "", "");
  }

  lemma SecondPriceFirst(s: string)
    requires s == "8.00/?10.00 CANCELLED"
    ensures OptChar('?', s) == Step(false, s)
    ensures OptAmount(s) == Step(Some("8.00"), "/?10.00 CANCELLED")
  {
    SecondPricePieces();
    SliceAppend("8.00", "/?10.00 CANCELLED");
    AmountBefore("8.00", "/?10.00 CANCELLED", 1);
  }

  lemma SecondPriceSecond(r: string)
    requires r == "/?10.00 CANCELLED"
    ensures OptSecond(r) == Step(Some("10.00"), " CANCELLED")
  {
    SecondPricePieces();
    SliceAppend("/?", "10.00 CANCELLED");
    SliceAppend("10.00", " CANCELLED");
    AmountBefore("10.00", " CANCELLED", 2);
  }

  lemma SecondPriceStatus(r: string)
    requires r == " CANCELLED"
    ensures OptChar(' ', r) == Step(true, "CANCELLED")
    ensures OptStatus("CANCELLED") == Step(Some(Cancelled), "") && OptChar(' ', "") == Step(false, "")
  {
    SecondPricePieces();
    SliceAppend(" ", "CANCELLED");
    assert "CANCELLED"[9..] == "";
  }

  /** The status words are matched case-sensitively. */
  lemma LowerCaseStatusIsInformation(s: string)
    requires s == "sold out"
    ensures MatchPrice(s) == Some(PriceMatch(false, None, None, false, None, false, Some(s), ""))
  {
    assert s[0] == 's' && s[1] == 'o';
    NoAmount(s);
    NoStatus(s);
    assert '\n' !in s;
    MatchPriceSteps(s, false, None, None, false, None, false, Some(s), s, s, s, s, s, s);
  }

  /** After a venue character that is not a space, neither group can
      start, so the lazy venue group must take more. */
  lemma TailNeedsSpace(r: string)
    requires r != [] && r[0] != ' ' && r[0] != '\n'
    ensures Tail(r).None?
  {
  }

  /** Skipping the positions where no tail can start does not change the
      lazy group's match. */
  lemma {:induction false} VenueFromIsLazy(s: string, k: nat)
    requires 1 <= k
    ensures VenueFrom(s, k) == LazyVenueFrom(s, k)
    decreases |s| - k
  {
    if k <= |s| && s[k - 1] != '\n' {
      if k < |s| && s[k] != ' ' && s[k] != '\n' {
        TailNeedsSpace(s[k..]);
      }
      VenueFromIsLazy(s, k + 1);
    }
  }

  /** `s[a..b]` holds neither a space nor a newline. */
  predicate InWord(s: string, a: nat, b: nat)
    requires b <= |s|
    decreases b - a
  {
    a >= b || (s[a] != ' ' && s[a] != '\n' && InWord(s, a + 1, b))
  }

  lemma {:induction false} InWordAll(s: string, a: nat, b: nat)
    requires b <= |s| && forall i :: a <= i < b ==> s[i] != ' ' && s[i] != '\n'
    ensures InWord(s, a, b)
    decreases b - a
  {
    if a < b {
      InWordAll(s, a + 1, b);
    }
  }

  /** The venue group runs over a word without stopping. */
  lemma {:induction false} VenueSkipsWord(s: string, k: nat, j: nat)
    requires 1 <= k <= j < |s| && InWord(s, k - 1, j)
    ensures VenueFrom(s, k) == VenueFrom(s, j)
    decreases j - k
  {
    if k < j {
      assert InWord(s, k, j);
      VenueSkipsWord(s, k + 1, j);
      assert VenueFrom(s, k) == VenueFrom(s, k + 1) == VenueFrom(s, j);
    }
  }

  /** "Barrowlands Glasgow ABC": venue, town and promoter code. */
  lemma VenueTownPromoter(s: string)
    requires s == "Barrowlands Glasgow ABC"
    ensures MatchVenueAndPromoter(s) == Some(VenueParts("Barrowlands", Some("Glasgow"), Some("ABC")))
  {
    BarrowlandsWord(s);
    VenueSkipsWord(s, 1, 11);
    GlasgowTail(" Glasgow ABC");
  }

  lemma BarrowlandsWord(s: string)
    requires s == "Barrowlands Glasgow ABC"
    ensures InWord(s, 0, 11) && s[..11] == "Barrowlands" && s[11..] == " Glasgow ABC"
  {
    InWordAll(s, 0, 11);
    VenueCellPieces();
    SliceAppend("Barrowlands", " Glasgow ABC");
  }

  lemma GlasgowTail(r: string)
    requires r == " Glasgow ABC"
    ensures Tail(r) == Some((Some("Glasgow"), Some("ABC")))
  {
    GlasgowSlices(r);
    GlasgowRun(r[1..]);
    AbcPromoter(r[8..]);
    TailViaTown(r, 7, Some("ABC"));
  }

  lemma GlasgowSlices(r: string)
    requires r == " Glasgow ABC"
    ensures r[1..] == "Glasgow ABC" && r[1..8] == "Glasgow" && r[8..] == " ABC"
  {
    VenueCellPieces();
    SliceAppend(" ", "Glasgow ABC");
    var t := "Glasgow ABC";
    SliceAppend("Glasgow", " ABC");
    assert r[8..] == t[7..] && r[1..8] == t[..7];
  }

  /** The town group takes the whole run when a promoter tail follows it. */
  lemma TailViaTown(r: string, n: nat, p: Option<string>)
    requires 1 <= n && |r| >= 1 && r[0] == ' ' && TownRun(r[1..]) == n
    requires PromoterTail(r[1 + n..]) == Some(p)
    ensures Tail(r) == Some((Some(r[1..1 + n]), p))
  {
  }

  lemma GlasgowRun(t: string)
    requires t == "Glasgow ABC"
    ensures TownRun(t) == 7
  {
    TownRunIs(t, 7);
  }

  lemma AbcPromoter(p: string)
    requires p == " ABC"
    ensures PromoterTail(p) == Some(Some("ABC"))
  {
    VenueCellPieces();
    SliceAppend(" ", "ABC");
    UpperRunIs("ABC", 3);
    assert p[1..1 + 3] == p[1..];
  }
}
