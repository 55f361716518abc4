/** The decisions the review import takes on each search result
    (management/commands/import_artist_reviews.py, `save_review` and the
    counting loop of `handle`): rated reviews that reference a known
    artist's MusicBrainz id, and are not stored yet, are stored with a
    trimmed headline and a publication time in UTC. */
module Reviews {
  import opened Base
  import opened Dates

  /** A reference of a search result: its type and its id, a path whose
      last segment is the MusicBrainz id. */
  datatype Reference = Reference(kind: string, id: string)

  /** The fields of one search result that `save_review` reads; None is a
      missing key. */
  datatype SearchResult = SearchResult(
    id: Option<string>,
    headline: Option<string>,
    webUrl: Option<string>,
    byline: Option<string>,
    trailText: Option<string>,
    starRating: Option<string>,
    webPublicationDate: Option<string>,
    references: Option<seq<Reference>>)

  /** A stored review; the publication date is in seconds from
      0001-01-01 00:00:00 UTC. */
  datatype Review = Review(
    externalId: Option<string>,
    publicationDate: int,
    headline: string,
    trail: string,
    byline: string,
    url: string,
    artist: nat,
    rating: string)

  /** Why `save_review` raises: a missing key (KeyError), a time or offset
      that does not parse (ValueError), an offset without ":" or a
      MusicBrainz reference without "/" (IndexError), a time past
      `datetime.max` (OverflowError). */
  datatype ReviewError = MissingField | BadTimestamp | BadOffset | MalformedReference | TimestampOverflow

  function GetOr(o: Option<string>, default: string): string
  {
    if o.Some? then o.value else default
  }

  // ---------------------------------------------------------------------
  // the headline

  /** " - review", nine characters. */
  const ReviewSuffix: string := " - review"

  /** The same suffix with its en dash mis-decoded as three characters:
      eleven characters. */
  const MojibakeSuffix: string := [' ', '\U{E2}', '\U{20AC}', '\U{201C}'] + ReviewSuffix[2..]

  /** The trim as written: nine characters come off after either suffix. */
  function TrimHeadlineAsWritten(headline: string): (r: string)
    ensures r <= headline
    ensures r == headline <==> !EndsWith(headline, MojibakeSuffix) && !EndsWith(headline, ReviewSuffix)
  {
    if EndsWith(headline, MojibakeSuffix) || EndsWith(headline, ReviewSuffix) then
      headline[..|headline| - 9]
    else headline
  }

  /** After " - review" the headline before it is left. */
  lemma TrimDropsReview(headline: string)
    ensures TrimHeadlineAsWritten(headline + ReviewSuffix) == headline
  {
    var h := headline + ReviewSuffix;
    assert h[|h| - |ReviewSuffix|..] == ReviewSuffix;
    assert h[..|h| - 9] == headline;
  }

  /** After the eleven-character suffix two of its characters stay. */
  lemma TrimLeavesMojibake(headline: string)
    ensures TrimHeadlineAsWritten(headline + MojibakeSuffix) == headline + [' ', '\U{E2}']
    ensures TrimHeadlineAsWritten(headline + MojibakeSuffix) != headline
  {
    var h := headline + MojibakeSuffix;
    assert h[|h| - |MojibakeSuffix|..] == MojibakeSuffix;
    assert h[..|h| - 9] == headline + MojibakeSuffix[..2];
  }

  /** The trim as intended: each suffix comes off whole; any other
      headline is kept. */
  function TrimHeadline(headline: string): (r: string)
    ensures r <= headline
    ensures r == headline <==> !EndsWith(headline, MojibakeSuffix) && !EndsWith(headline, ReviewSuffix)
  {
    if EndsWith(headline, MojibakeSuffix) then headline[..|headline| - |MojibakeSuffix|]
    else if EndsWith(headline, ReviewSuffix) then headline[..|headline| - |ReviewSuffix|]
    else headline
  }

  /** Either suffix comes off exactly. */
  lemma TrimHeadlineSuffix(headline: string)
    ensures TrimHeadline(headline + ReviewSuffix) == headline
    ensures TrimHeadline(headline + MojibakeSuffix) == headline
  {
    var a := headline + ReviewSuffix;
    assert a[|a| - |ReviewSuffix|..] == ReviewSuffix;
    assert a[|a| - 9] == ' ' && MojibakeSuffix[2] == '\U{20AC}';
    assert a[..|a| - |ReviewSuffix|] == headline;
    var b := headline + MojibakeSuffix;
    assert b[|b| - |MojibakeSuffix|..] == MojibakeSuffix;
    assert b[..|b| - |MojibakeSuffix|] == headline;
  }

  // ---------------------------------------------------------------------
  // the publication time

  /** One second past `datetime.max`. */
  const SecondsLimit: int := MaxOrdinal * 86400

  /** The time of day of "HH:MM:SS", in seconds. */
  function ParseClock(s: string): (r: Option<int>)
    ensures r.Some? ==> 0 <= r.value < 86400
  {
    if |s| == 8 && s[2] == ':' && s[5] == ':'
       && AllDigits(s[..2]) && AllDigits(s[3..5]) && AllDigits(s[6..])
       && DigitsValue(s[..2]) < 24 && DigitsValue(s[3..5]) < 60 && DigitsValue(s[6..]) < 60
    then Some(DigitsValue(s[..2]) * 3600 + DigitsValue(s[3..5]) * 60 + DigitsValue(s[6..]))
    else None
  }

  /** `datetime.strptime(s, '%Y-%m-%dT%H:%M:%S')` in seconds, for a stamp
      whose fields are all zero-padded; the "T" matches either case. */
  function ParseLocalTime(s: string): (r: Option<int>)
    ensures r.Some? ==> 0 <= r.value < SecondsLimit
  {
    if |s| == 19 && (s[10] == 'T' || s[10] == 't') && ParseIsoDate(s[..10]).Some? && ParseClock(s[11..]).Some? then
      var d := ParseIsoDate(s[..10]).value;
      OrdinalRange(d);
      Some((ToOrdinal(d) - 1) * 86400 + ParseClock(s[11..]).value)
    else None
  }

  /** A `timedelta(hours=int(tz[0]), minutes=int(tz[1]))` in seconds from
      the text after "+", its arguments evaluated left to right: ValueError
      from the hours, then IndexError without a second piece, then
      ValueError from the minutes. */
  function ParseOffset(tz: string): (r: Result<int, ReviewError>)
  {
    var pieces := Split(tz, ':');
    if ParseInt(pieces[0]).None? then Err(BadTimestamp)
    else if |pieces| < 2 then Err(BadOffset)
    else if ParseInt(pieces[1]).None? then Err(BadTimestamp)
    else Ok(ParseInt(pieces[0]).value * 3600 + ParseInt(pieces[1]).value * 60)
  }

  /** The text before a trailing "Z" (of either case), parsed; ValueError
      otherwise. */
  function ParseZulu(stamp: string): (r: Result<int, ReviewError>)
    ensures r.Ok? ==> 0 <= r.value < SecondsLimit
  {
    if stamp != [] && (stamp[|stamp| - 1] == 'Z' || stamp[|stamp| - 1] == 'z') then
      match ParseLocalTime(stamp[..|stamp| - 1])
      case Some(t) => Ok(t)
      case None => Err(BadTimestamp)
    else Err(BadTimestamp)
  }

  /** A moment inside the range of `datetime`, else OverflowError. */
  function InRange(t: int): (r: Result<int, ReviewError>)
    ensures r.Ok? ==> r.value == t && 0 <= t < SecondsLimit
  {
    if 0 <= t < SecondsLimit then Ok(t) else Err(TimestampOverflow)
  }

  /** A stamp as read: its local time and its offset ahead of UTC, both
      in seconds. */
  datatype Stamped = Stamped(local: int, offset: int)

  /** `webPublicationDate` read as the command reads it: split at the last
      "+"; with an offset, `tz.split(":")` (IndexError with fewer than two
      pieces), `int()` of the first two pieces, then `strptime` of the time;
      without one, `strptime` of a time ending in "Z" at offset 0. */
  function ReadStamp(stamp: string): (r: Result<Stamped, ReviewError>)
    ensures r.Ok? ==> 0 <= r.value.local < SecondsLimit
  {
    match RSplitLast(stamp, '+')
    case None =>
      (match ParseZulu(stamp)
       case Err(e) => Err(e)
       case Ok(t) => Ok(Stamped(t, 0)))
    case Some(parts) =>
      match ParseOffset(parts.1)
      case Err(e) => Err(e)
      case Ok(offset) =>
        match ParseLocalTime(parts.0)
        case None => Err(BadTimestamp)
        case Some(t) => Ok(Stamped(t, offset))
  }

  /** The moment as written: the local time plus the offset. */
  function AddOffset(read: Result<Stamped, ReviewError>): (r: Result<int, ReviewError>)
    ensures r.Ok? ==> read.Ok? && r.value == read.value.local + read.value.offset
    ensures read.Err? ==> r == Err(read.error)
  {
    match read
    case Err(e) => Err(e)
    case Ok(st) => InRange(st.local + st.offset)
  }

  /** The moment in UTC: a local time that is `offset` ahead of UTC, less
      the offset. */
  function ToUtc(read: Result<Stamped, ReviewError>): (r: Result<int, ReviewError>)
    ensures r.Ok? ==> read.Ok? && r.value + read.value.offset == read.value.local
    ensures read.Err? ==> r == Err(read.error)
  {
    match read
    case Err(e) => Err(e)
    case Ok(st) => InRange(st.local - st.offset)
  }

  /** The conversion as written: the offset is added to the local time. */
  function PublicationDateAsWritten(stamp: string): (r: Result<int, ReviewError>)
    ensures r.Ok? ==> 0 <= r.value < SecondsLimit
  {
    AddOffset(ReadStamp(stamp))
  }

  /** The conversion as intended: the offset is taken off. */
  function PublicationDate(stamp: string): (r: Result<int, ReviewError>)
    ensures r.Ok? ==> 0 <= r.value < SecondsLimit
  {
    ToUtc(ReadStamp(stamp))
  }

  /** A string cut at a one-character seam. */
  lemma Seam(a: string, c: char, b: string)
    ensures var s := a + [c] + b;
      |s| == |a| + 1 + |b| && s[..|a|] == a && s[|a|] == c && s[|a| + 1..] == b
  {
  }

  /** "HH:MM:SS". */
  function ClockText(hour: nat, minute: nat, second: nat): string
    requires hour < 24 && minute < 60 && second < 60
  {
    Digits2(hour) + [':'] + Digits2(minute) + [':'] + Digits2(second)
  }

  /** "YYYY-MM-DDTHH:MM:SS". */
  function LocalTimeText(d: Date, hour: nat, minute: nat, second: nat): string
    requires ValidDate(d) && hour < 24 && minute < 60 && second < 60
  {
    IsoFormat(d) + ['T'] + ClockText(hour, minute, second)
  }

  lemma ClockSlices(hh: string, mm: string, ss: string)
    requires |hh| == 2 && |mm| == 2 && |ss| == 2
    ensures var s := hh + [':'] + mm + [':'] + ss;
      |s| == 8 && s[2] == ':' && s[5] == ':' && s[..2] == hh && s[3..5] == mm && s[6..] == ss
  {
    Seam(hh + [':'] + mm, ':', ss);
    Seam(hh, ':', mm);
  }

  lemma ClockRoundTrip(hour: nat, minute: nat, second: nat)
    requires hour < 24 && minute < 60 && second < 60
    ensures ParseClock(ClockText(hour, minute, second)) == Some(hour * 3600 + minute * 60 + second)
  {
    ClockSlices(Digits2(hour), Digits2(minute), Digits2(second));
  }

  /** A date text, "T" and a clock text parse as the date and the clock. */
  lemma LocalTimeParts(date: string, clock: string, d: Date, c: int)
    requires |date| == 10 && |clock| == 8
    requires ParseIsoDate(date) == Some(d) && ParseClock(clock) == Some(c)
    ensures ParseLocalTime(date + ['T'] + clock) == Some((ToOrdinal(d) - 1) * 86400 + c)
  {
    Seam(date, 'T', clock);
  }

  /** A run of digits holds no other character. */
  lemma DigitsFree(s: string, c: char)
    requires AllDigits(s) && !IsDigit(c)
    ensures c !in s
  {
    assert forall i :: 0 <= i < |s| ==> s[i] != c;
  }

  /** A written local time holds no "+". */
  lemma LocalTimeNoPlus(d: Date, hour: nat, minute: nat, second: nat)
    requires ValidDate(d) && hour < 24 && minute < 60 && second < 60
    ensures '+' !in LocalTimeText(d, hour, minute, second)
  {
    DigitsFree(Digits4(d.year), '+');
    DigitsFree(Digits2(d.month), '+');
    DigitsFree(Digits2(d.day), '+');
    DigitsFree(Digits2(hour), '+');
    DigitsFree(Digits2(minute), '+');
    DigitsFree(Digits2(second), '+');
  }

  /** A time ending in "Z" is read at offset 0, so both conversions give
      the local time itself. */
  lemma ZuluStamp(time: string, local: int)
    requires '+' !in time && ParseLocalTime(time) == Some(local)
    ensures ReadStamp(time + ['Z']) == Ok(Stamped(local, 0))
    ensures PublicationDate(time + ['Z']) == Ok(local)
    ensures PublicationDateAsWritten(time + ['Z']) == Ok(local)
  {
    var stamp := time + ['Z'];
    assert '+' !in stamp;
    assert stamp[..|time|] == time;
  }

  /** Two runs of digits around ":" read as hours and minutes. */
  lemma OffsetParts(hs: string, ms: string)
    requires hs != [] && ms != [] && AllDigits(hs) && AllDigits(ms)
    ensures ParseOffset(hs + [':'] + ms) == Ok(DigitsValue(hs) * 3600 + DigitsValue(ms) * 60)
  {
    DigitsFree(hs, ':');
    DigitsFree(ms, ':');
    SplitFirst(hs, ms, ':');
    assert Split(ms, ':') == [ms];
    ParseIntDigits(hs);
    ParseIntDigits(ms);
  }

  /** Text after the last "+" holds none. */
  lemma {:induction false} LastPlus(local: string, tz: string)
    requires '+' !in tz
    ensures RSplitLast(local + ['+'] + tz, '+') == Some((local, tz))
    decreases |tz|
  {
    var s := local + ['+'] + tz;
    if tz == [] {
      assert s[..|s| - 1] == local;
    } else {
      var init := tz[..|tz| - 1];
      assert '+' !in init by {
        assert forall i :: 0 <= i < |init| ==> init[i] == tz[i];
      }
      LastPlus(local, init);
      assert s[..|s| - 1] == local + ['+'] + init;
      assert s[|s| - 1] == tz[|tz| - 1];
      assert init + [tz[|tz| - 1]] == tz;
    }
  }

  /** A stamp whose text before the last "+" is a local time and whose
      text after it is an offset reads as that time at that offset. */
  lemma ReadWithOffset(stamp: string, time: string, tz: string, local: int, offset: int)
    requires RSplitLast(stamp, '+') == Some((time, tz))
    requires ParseOffset(tz) == Ok(offset) && ParseLocalTime(time) == Some(local)
    ensures ReadStamp(stamp) == Ok(Stamped(local, offset))
  {
  }

  /** The intended conversion of a stamp read as `local` at `offset`. */
  lemma ConvertedToUtc(stamp: string, local: int, offset: int)
    requires ReadStamp(stamp) == Ok(Stamped(local, offset))
    ensures PublicationDate(stamp) == InRange(local - offset)
  {
    ToUtcOf(local, offset);
  }

  /** The conversion as written of a stamp read as `local` at `offset`. */
  lemma ConvertedAsWritten(stamp: string, local: int, offset: int)
    requires ReadStamp(stamp) == Ok(Stamped(local, offset))
    ensures PublicationDateAsWritten(stamp) == InRange(local + offset)
  {
    AddOffsetOf(local, offset);
  }

  lemma ToUtcOf(local: int, offset: int)
    ensures ToUtc(Ok(Stamped(local, offset))) == InRange(local - offset)
  {
  }

  lemma AddOffsetOf(local: int, offset: int)
    ensures AddOffset(Ok(Stamped(local, offset))) == InRange(local + offset)
  {
  }

  /** A local time, "+" and an offset read as that time at that offset. */
  lemma OffsetStampReads(time: string, tz: string, local: int, offset: int)
    requires '+' !in tz
    requires ParseLocalTime(time) == Some(local) && ParseOffset(tz) == Ok(offset)
    ensures ReadStamp(time + ['+'] + tz) == Ok(Stamped(local, offset))
  {
    LastPlus(time, tz);
    ReadWithOffset(time + ['+'] + tz, time, tz, local, offset);
  }

  /** The intended conversion of a stamp at offset +HH:MM gives the
      moment that is that offset behind the local time. */
  lemma OffsetStampUtc(time: string, tz: string, local: int, offset: int)
    requires '+' !in tz
    requires ParseLocalTime(time) == Some(local) && ParseOffset(tz) == Ok(offset)
    ensures PublicationDate(time + ['+'] + tz) == InRange(local - offset)
  {
    OffsetStampReads(time, tz, local, offset);
    ConvertedToUtc(time + ['+'] + tz, local, offset);
  }

  /** The conversion as written gives the moment that is the offset ahead
      of the local time instead: twice the offset away from the intended
      one. */
  lemma OffsetStampAsWritten(time: string, tz: string, local: int, offset: int)
    requires '+' !in tz
    requires ParseLocalTime(time) == Some(local) && ParseOffset(tz) == Ok(offset)
    ensures PublicationDateAsWritten(time + ['+'] + tz) == InRange(local + offset)
    ensures PublicationDateAsWritten(time + ['+'] + tz).Ok? && PublicationDate(time + ['+'] + tz).Ok? ==>
      PublicationDateAsWritten(time + ['+'] + tz).value - PublicationDate(time + ['+'] + tz).value == 2 * offset
  {
    var stamp := time + ['+'] + tz;
    OffsetStampReads(time, tz, local, offset);
    ConvertedToUtc(stamp, local, offset);
    ConvertedAsWritten(stamp, local, offset);
  }

  // ---------------------------------------------------------------------
  // the reference loop

  /** Whether a review with this external id is stored already
      (`Review.objects.get(external_id=...)` finds one). */
  predicate HasReview(reviews: seq<Review>, externalId: Option<string>)
  {
    exists i :: 0 <= i < |reviews| && reviews[i].externalId == externalId
  }

  /** A MusicBrainz reference whose id ends in "/<mbid>" of this artist. */
  predicate MatchesArtist(ref: Reference, artists: map<string, nat>, artist: nat)
  {
    ref.kind == "musicbrainz" && RSplitLast(ref.id, '/').Some?
    && RSplitLast(ref.id, '/').value.1 in artists && artists[RSplitLast(ref.id, '/').value.1] == artist
  }

  /** The `k`-th reference names `artist`, and every MusicBrainz reference
      before it has a "/" and names an mbid no artist has, so the loop
      reaches it without raising. */
  predicate FirstMatchAt(refs: seq<Reference>, artists: map<string, nat>, k: int, artist: nat)
  {
    && 0 <= k < |refs| && MatchesArtist(refs[k], artists, artist)
    && forall j :: 0 <= j < k && refs[j].kind == "musicbrainz" ==>
         RSplitLast(refs[j].id, '/').Some? && RSplitLast(refs[j].id, '/').value.1 !in artists
  }

  /** The loop over the references: the first MusicBrainz reference whose
      last path segment is a known artist's mbid gives that artist, unless
      the review is stored already, in which case the loop runs on; a
      MusicBrainz reference without "/" raises IndexError. */
  function MatchReferences(refs: seq<Reference>, artists: map<string, nat>, stored: bool)
    : (r: Result<Option<nat>, ReviewError>)
    ensures r.Ok? && r.value.Some? ==> !stored && exists k :: FirstMatchAt(refs, artists, k, r.value.value)
    ensures stored ==> r != Ok(None) ==> r.Err?
  {
    if refs == [] then Ok(None)
    else if refs[0].kind != "musicbrainz" then
      var r := MatchReferences(refs[1..], artists, stored);
      FirstMatchShifts(refs, artists);
      r
    else
      match RSplitLast(refs[0].id, '/')
      case None => Err(MalformedReference)
      case Some(parts) =>
        var mbid := parts.1;
        if mbid in artists && !stored then
          assert FirstMatchAt(refs, artists, 0, artists[mbid]);
          Ok(Some(artists[mbid]))
        else
          var r := MatchReferences(refs[1..], artists, stored);
          // a known mbid is passed over only for a stored review, which finds nobody
          if mbid in artists then r
          else
            FirstMatchShifts(refs, artists);
            r
  }

  /** A first match in the tail is a first match one place on in the whole
      list, when the head is no MusicBrainz reference or names an unknown
      mbid. */
  lemma FirstMatchShifts(refs: seq<Reference>, artists: map<string, nat>)
    requires refs != []
    requires refs[0].kind == "musicbrainz" ==>
               RSplitLast(refs[0].id, '/').Some? && RSplitLast(refs[0].id, '/').value.1 !in artists
    ensures forall k, a :: FirstMatchAt(refs[1..], artists, k, a) ==> FirstMatchAt(refs, artists, k + 1, a)
  {
    forall k, a | FirstMatchAt(refs[1..], artists, k, a)
      ensures FirstMatchAt(refs, artists, k + 1, a)
    {
      assert refs[k + 1] == refs[1..][k];
      forall j | 0 <= j < k + 1 && refs[j].kind == "musicbrainz"
        ensures RSplitLast(refs[j].id, '/').Some? && RSplitLast(refs[j].id, '/').value.1 !in artists
      {
        if j > 0 { assert refs[j] == refs[1..][j - 1]; }
      }
    }
  }

  /** The converse: for a review not stored yet, the loop finds the artist
      of the first matching MusicBrainz reference. */
  lemma {:induction false} MatchReferencesFinds(refs: seq<Reference>, artists: map<string, nat>, k: int, artist: nat)
    requires FirstMatchAt(refs, artists, k, artist)
    ensures MatchReferences(refs, artists, false) == Ok(Some(artist))
    decreases k
  {
    if k > 0 {
      var tail := refs[1..];
      assert refs[0].kind == "musicbrainz" ==>
        RSplitLast(refs[0].id, '/').Some? && RSplitLast(refs[0].id, '/').value.1 !in artists;
      assert FirstMatchAt(tail, artists, k - 1, artist) by {
        assert tail[k - 1] == refs[k];
        forall j | 0 <= j < k - 1 && tail[j].kind == "musicbrainz"
          ensures RSplitLast(tail[j].id, '/').Some? && RSplitLast(tail[j].id, '/').value.1 !in artists
        {
          assert tail[j] == refs[j + 1];
        }
      }
      MatchReferencesFinds(tail, artists, k - 1, artist);
    }
  }

  /** What `save_review` does with a result: Err where it raises, None
      where it returns False, the review to store where it returns True.
      A stored review is new, rated, dated from its stamp and filed under
      the artist of the first MusicBrainz reference naming a known mbid. */
  function ReviewToSave(result: SearchResult, artists: map<string, nat>, reviews: seq<Review>)
    : (r: Result<Option<Review>, ReviewError>)
    ensures r.Ok? && r.value.Some? ==>
      var x := r.value.value;
      && !HasReview(reviews, result.id) && x.externalId == result.id
      && result.starRating == Some(x.rating) && result.headline.Some?
      && x.headline == TrimHeadlineAsWritten(result.headline.value)
      && result.webPublicationDate.Some? && PublicationDateAsWritten(result.webPublicationDate.value) == Ok(x.publicationDate)
      && result.references.Some?
      && exists k :: FirstMatchAt(result.references.value, artists, k, x.artist)
  {
    if result.headline.None? || result.webUrl.None? then Err(MissingField)
    else if result.starRating.None? then Ok(None)
    else if result.webPublicationDate.None? then Err(MissingField)
    else match PublicationDateAsWritten(result.webPublicationDate.value)
      case Err(e) => Err(e)
      case Ok(date) =>
        if result.references.None? then Err(MissingField)
        else match MatchReferences(result.references.value, artists, HasReview(reviews, result.id))
          case Err(e) => Err(e)
          case Ok(None) => Ok(None)
          case Ok(Some(artist)) =>
            Ok(Some(Review(result.id, date, TrimHeadlineAsWritten(result.headline.value),
                           GetOr(result.trailText, ""), GetOr(result.byline, ""),
                           result.webUrl.value, artist, result.starRating.value)))
  }

  /** A result without a star rating is skipped, whatever else it holds. */
  lemma NoRatingSavesNothing(result: SearchResult, artists: map<string, nat>, reviews: seq<Review>)
    requires result.headline.Some? && result.webUrl.Some? && result.starRating.None?
    ensures ReviewToSave(result, artists, reviews) == Ok(None)
  {
  }

  /** A review is saved if a MusicBrainz id matches a known artist and the
      review has a rating: a new, rated result with its fields present and
      a readable stamp is stored under the first matching artist. */
  lemma SavesMatchedReview(result: SearchResult, artists: map<string, nat>, reviews: seq<Review>,
                           k: int, artist: nat, date: int)
    requires result.headline.Some? && result.webUrl.Some? && result.starRating.Some?
    requires result.webPublicationDate.Some?
    requires PublicationDateAsWritten(result.webPublicationDate.value) == Ok(date)
    requires result.references.Some? && FirstMatchAt(result.references.value, artists, k, artist)
    requires !HasReview(reviews, result.id)
    ensures ReviewToSave(result, artists, reviews)
      == Ok(Some(Review(result.id, date, TrimHeadlineAsWritten(result.headline.value),
                        GetOr(result.trailText, ""), GetOr(result.byline, ""),
                        result.webUrl.value, artist, result.starRating.value)))
  {
    MatchReferencesFinds(result.references.value, artists, k, artist);
  }

  /** External ids are unique among stored reviews. */
  ghost predicate UniqueIds(reviews: seq<Review>)
  {
    forall i, j :: 0 <= i < j < |reviews| ==> reviews[i].externalId != reviews[j].externalId
  }

  /** Storing what `save_review` decides keeps external ids unique. */
  lemma SaveKeepsIdsUnique(result: SearchResult, artists: map<string, nat>, reviews: seq<Review>)
    requires UniqueIds(reviews)
    requires ReviewToSave(result, artists, reviews).Ok? && ReviewToSave(result, artists, reviews).value.Some?
    ensures UniqueIds(reviews + [ReviewToSave(result, artists, reviews).value.value])
  {
  }

  // ---------------------------------------------------------------------
  // a page of results

  /** The loop of `handle` over one page from the `k`-th result on, with
      `saved` counted so far: the reviews stored at the end and the count,
      or the error that stops the command (the reviews stored before it
      stay stored). */
  function ImportFrom(reviews: seq<Review>, results: seq<SearchResult>, artists: map<string, nat>, saved: nat)
    : (r: (seq<Review>, Result<nat, ReviewError>))
    ensures reviews <= r.0
    ensures r.1.Ok? ==> |r.0| == |reviews| + r.1.value - saved && saved <= r.1.value <= saved + |results|
    decreases |results|
  {
    if results == [] then (reviews, Ok(saved))
    else match ReviewToSave(results[0], artists, reviews)
      case Err(e) => (reviews, Err(e))
      case Ok(None) => ImportFrom(reviews, results[1..], artists, saved)
      case Ok(Some(x)) => ImportFrom(reviews + [x], results[1..], artists, saved + 1)
  }

  /** The reviews a page stores keep external ids unique. */
  lemma {:induction false} ImportKeepsIdsUnique(reviews: seq<Review>, results: seq<SearchResult>,
                                               artists: map<string, nat>, saved: nat)
    requires UniqueIds(reviews)
    ensures UniqueIds(ImportFrom(reviews, results, artists, saved).0)
    decreases |results|
  {
    if results != [] {
      match ReviewToSave(results[0], artists, reviews)
      case Err(_) =>
      case Ok(None) => ImportKeepsIdsUnique(reviews, results[1..], artists, saved);
      case Ok(Some(x)) =>
        SaveKeepsIdsUnique(results[0], artists, reviews);
        ImportKeepsIdsUnique(reviews + [x], results[1..], artists, saved + 1);
    }
  }

  /** The stored reviews, updated as `save_review` saves. */
  class ReviewStore {
    var reviews: seq<Review>

    ghost predicate Valid()
      reads this
    {
      UniqueIds(reviews)
    }

    constructor(initial: seq<Review>)
      requires UniqueIds(initial)
      ensures reviews == initial && Valid()
    {
      reviews := initial;
    }

    /** `Review.objects.get(external_id=...)` finds a review. */
    method Exists(externalId: Option<string>) returns (found: bool)
      ensures found <==> HasReview(reviews, externalId)
    {
      found := false;
      for i := 0 to |reviews|
        invariant found <==> exists j :: 0 <= j < i && reviews[j].externalId == externalId
      {
        if reviews[i].externalId == externalId {
          found := true;
        }
      }
    }

    /** The loop over the references of `save_review`, with early
        returns. */
    method FindArtist(refs: seq<Reference>, artists: map<string, nat>, externalId: Option<string>)
      returns (r: Result<Option<nat>, ReviewError>)
      ensures r == MatchReferences(refs, artists, HasReview(reviews, externalId))
    {
      var stored := HasReview(reviews, externalId);
      for k := 0 to |refs|
        invariant MatchReferences(refs, artists, stored) == MatchReferences(refs[k..], artists, stored)
      {
        assert refs[k..][1..] == refs[k + 1..];
        if refs[k].kind == "musicbrainz" {
          var parts := RSplitLast(refs[k].id, '/');
          if parts.None? {
            return Err(MalformedReference);
          }
          var mbid := parts.value.1;
          if mbid in artists {
            var found := Exists(externalId);
            if !found {
              return Ok(Some(artists[mbid]));
            }
          }
        }
      }
      r := Ok(None);
    }

    /** `save_review(review)`: stores at most one review and says whether
        it did. */
    method SaveReview(result: SearchResult, artists: map<string, nat>) returns (r: Result<bool, ReviewError>)
      requires Valid()
      modifies this
      ensures Valid()
      ensures var d := ReviewToSave(result, artists, old(reviews));
        (d.Err? ==> r == Err(d.error) && reviews == old(reviews))
        && (d == Ok(None) ==> r == Ok(false) && reviews == old(reviews))
        && (d.Ok? && d.value.Some? ==> r == Ok(true) && reviews == old(reviews) + [d.value.value])
    {
      if result.headline.None? || result.webUrl.None? {
        return Err(MissingField);
      }
      if result.starRating.None? {
        return Ok(false);
      }
      var headline := TrimHeadlineAsWritten(result.headline.value);
      if result.webPublicationDate.None? {
        return Err(MissingField);
      }
      var date := PublicationDateAsWritten(result.webPublicationDate.value);
      if date.Err? {
        return Err(date.error);
      }
      if result.references.None? {
        return Err(MissingField);
      }
      var artist := FindArtist(result.references.value, artists, result.id);
      match artist
      case Err(e) =>
        r := Err(e);
      case Ok(None) =>
        r := Ok(false);
      case Ok(Some(a)) =>
        var review := Review(result.id, date.value, headline, GetOr(result.trailText, ""),
                             GetOr(result.byline, ""), result.webUrl.value, a, result.starRating.value);
        SaveKeepsIdsUnique(result, artists, reviews);
        reviews := reviews + [review];
        r := Ok(true);
    }

    /** The loop of `handle` over one page of results: `saved_reviews`
        counts the results `save_review` stored. */
    method ImportPage(results: seq<SearchResult>, artists: map<string, nat>) returns (r: Result<nat, ReviewError>)
      requires Valid()
      modifies this
      ensures Valid()
      ensures (reviews, r) == ImportFrom(old(reviews), results, artists, 0)
    {
      var savedReviews := 0;
      for k := 0 to |results|
        invariant Valid()
        invariant ImportFrom(reviews, results[k..], artists, savedReviews) == ImportFrom(old(reviews), results, artists, 0)
      {
        assert results[k..][1..] == results[k + 1..];
        var saved := SaveReview(results[k], artists);
        if saved.Err? {
          return Err(saved.error);
        }
        if saved.value {
          savedReviews := savedReviews + 1;
        }
      }
      r := Ok(savedReviews);
    }
  }
}
