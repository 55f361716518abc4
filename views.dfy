/** The decision logic of two views (views.py): the artist index, which
    files every published artist under the first letter of its slug, and
    the week boundaries of the home page. */
module Views {
  import opened Base
  import opened Dates
  import opened Models

  // ---------------------------------------------------------------------
  // artist_list

  /** `map(chr, range(65, 65 + n))`. */
  function Chars(n: nat): (r: string)
    requires n <= 26
    ensures |r| == n && forall i :: 0 <= i < n ==> r[i] == (65 + i) as char
  {
    seq(n, i requires 0 <= i < n => (65 + i) as char)
  }

  /** `['#'] + map(chr, range(65, 91))`: the index's letters in order. */
  const Alphabet: string := ['#'] + Chars(26)

  /** The letters are 27 distinct characters. */
  lemma AlphabetDistinct()
    ensures |Alphabet| == 27 && Alphabet[0] == '#'
    ensures forall i, j :: 0 <= i < j < |Alphabet| ==> Alphabet[i] != Alphabet[j]
    ensures forall i :: 1 <= i < |Alphabet| ==> 'A' <= Alphabet[i] <= 'Z'
  {
  }

  /** No other letter of the index equals the one at `b`. */
  lemma AlphabetUnique(b: int)
    requires 0 <= b < |Alphabet|
    ensures forall j :: 0 <= j < |Alphabet| && j != b ==> Alphabet[j] != Alphabet[b]
  {
    AlphabetDistinct();
  }

  /** `c.upper()` on the ASCII letters slugs are made of. */
  function Upper(c: char): (u: char)
    ensures 'a' <= c <= 'z' ==> 'A' <= u <= 'Z'
  {
    if 'a' <= c <= 'z' then (c as int - 32) as char else c
  }

  /** The letter an artist is filed under: the upper-cased first
      character of its slug when that is a letter of the index, else '#'. */
  function BucketLetter(slug: string): (c: char)
    requires slug != []
    ensures c in Alphabet
  {
    var u := Upper(slug[0]);
    if u in Alphabet then u else '#'
  }

  /** Every slug can be filed (an empty slug makes `slug[0]` raise). */
  predicate AllSlugged(artists: seq<Artist>)
  {
    forall k :: 0 <= k < |artists| ==> artists[k].slug != []
  }

  /** The artists filed under `letter`, in the order of `artists`. */
  function Bucket(artists: seq<Artist>, letter: char): seq<Artist>
    requires AllSlugged(artists)
  {
    if artists == [] then []
    else
      var last := artists[|artists| - 1];
      Bucket(artists[..|artists| - 1], letter) + (if BucketLetter(last.slug) == letter then [last] else [])
  }

  /** The view's context: the letters in order, each with its bucket, and
      the number of artists. */
  datatype ArtistListing = ArtistListing(letters: string, buckets: seq<seq<Artist>>, artistCount: nat)

  /** `artist_list` over the published artists in the order the query
      returns them: None where an empty slug makes the view raise. */
  method ArtistList(artists: seq<Artist>) returns (r: Option<ArtistListing>)
    ensures r.None? <==> !AllSlugged(artists)
    ensures r.Some? ==> && r.value.letters == Alphabet
                        && |r.value.buckets| == |Alphabet|
                        && r.value.artistCount == |artists|
    ensures r.Some? ==> forall b :: 0 <= b < |Alphabet| ==> r.value.buckets[b] == Bucket(artists, Alphabet[b])
  {
    var buckets: seq<seq<Artist>> := seq(|Alphabet|, _ => []);
    for k := 0 to |artists|
      invariant |buckets| == |Alphabet|
      invariant SluggedPrefix(artists, k) && forall b :: 0 <= b < |Alphabet| ==> buckets[b] == Bucket(artists[..k], Alphabet[b])
    {
      var artist := artists[k];
      if artist.slug == [] {
        return None;
      }
      var letter := Upper(artist.slug[0]);
      if letter !in Alphabet {
        letter := '#';
      }
      assert letter == BucketLetter(artist.slug);
      var b := IndexOf(Alphabet, letter);
      assert SluggedPrefix(artists, k + 1);
      FileArtist(artists, k, buckets, b);
      buckets := buckets[b := buckets[b] + [artist]];
    }
    assert artists[..|artists|] == artists;
    r := Some(ArtistListing(Alphabet, buckets, |artists|));
  }

  /** The first `k` artists can be filed. */
  ghost predicate SluggedPrefix(artists: seq<Artist>, k: nat)
  {
    k <= |artists| && AllSlugged(artists[..k])
  }

  /** Filing one more artist adds it to the end of its letter's bucket. */
  lemma BucketStep(artists: seq<Artist>, k: nat)
    requires k < |artists| && SluggedPrefix(artists, k + 1)
    ensures SluggedPrefix(artists, k)
    ensures forall c :: Bucket(artists[..k + 1], c) == Bucket(artists[..k], c)
              + (if BucketLetter(artists[k].slug) == c then [artists[k]] else [])
  {
    assert artists[..k + 1][..k] == artists[..k];
  }

  /** Appending the next artist to the bucket at `b`, its letter's, gives
      the buckets of one more artist. */
  lemma FileArtist(artists: seq<Artist>, k: nat, buckets: seq<seq<Artist>>, b: int)
    requires k < |artists| && SluggedPrefix(artists, k + 1)
    requires |buckets| == |Alphabet| && SluggedPrefix(artists, k)
    requires forall j :: 0 <= j < |Alphabet| ==> buckets[j] == Bucket(artists[..k], Alphabet[j])
    requires 0 <= b < |Alphabet| && Alphabet[b] == BucketLetter(artists[k].slug)
    ensures var filed := buckets[b := buckets[b] + [artists[k]]];
      forall j :: 0 <= j < |Alphabet| ==> filed[j] == Bucket(artists[..k + 1], Alphabet[j])
  {
    BucketStep(artists, k);
    AlphabetUnique(b);
  }

  /** An artist is in a bucket exactly when it is one of the artists and
      is filed under that bucket's letter, so it is in exactly one bucket. */
  lemma {:induction false} BucketMembers(artists: seq<Artist>, letter: char, x: Artist)
    requires AllSlugged(artists)
    ensures x in Bucket(artists, letter) <==> x in artists && BucketLetter(x.slug) == letter
  {
    if artists != [] {
      var init := artists[..|artists| - 1];
      BucketMembers(init, letter, x);
      assert artists == init + [artists[|artists| - 1]];
    }
  }

  /** The sizes of the buckets of `letters`. */
  function TotalSize(artists: seq<Artist>, letters: string): nat
    requires AllSlugged(artists)
  {
    if letters == [] then 0 else |Bucket(artists, letters[0])| + TotalSize(artists, letters[1..])
  }

  /** How often `c` occurs in `letters`. */
  function Occurrences(letters: string, c: char): nat
  {
    if letters == [] then 0 else (if letters[0] == c then 1 else 0) + Occurrences(letters[1..], c)
  }

  lemma {:induction false} OccursOnce(letters: string, c: char)
    requires forall i, j :: 0 <= i < j < |letters| ==> letters[i] != letters[j]
    ensures Occurrences(letters, c) == if c in letters then 1 else 0
  {
    if letters != [] {
      var rest := letters[1..];
      assert forall i, j :: 0 <= i < j < |rest| ==> rest[i] != rest[j] by {
        forall i, j | 0 <= i < j < |rest| ensures rest[i] != rest[j] {
          assert rest[i] == letters[i + 1] && rest[j] == letters[j + 1];
        }
      }
      OccursOnce(rest, c);
      assert letters[0] == c ==> c !in rest;
      assert c in letters <==> letters[0] == c || c in rest;
    }
  }

  /** Adding one artist grows the buckets by one for each time its letter
      occurs. */
  lemma {:induction false} TotalSizeStep(artists: seq<Artist>, letters: string)
    requires artists != [] && AllSlugged(artists)
    ensures var x := artists[|artists| - 1];
      TotalSize(artists, letters)
        == TotalSize(artists[..|artists| - 1], letters) + Occurrences(letters, BucketLetter(x.slug))
  {
    if letters != [] {
      TotalSizeStep(artists, letters[1..]);
    }
  }

  /** `artist_count` is the number of artists across all buckets. */
  lemma {:induction false} BucketsCount(artists: seq<Artist>)
    requires AllSlugged(artists)
    ensures TotalSize(artists, Alphabet) == |artists|
  {
    if artists == [] {
      EmptyBuckets(Alphabet);
    } else {
      var init := artists[..|artists| - 1];
      BucketsCount(init);
      TotalSizeStep(artists, Alphabet);
      AlphabetDistinct();
      OccursOnce(Alphabet, BucketLetter(artists[|artists| - 1].slug));
    }
  }

  lemma {:induction false} EmptyBuckets(letters: string)
    ensures TotalSize([], letters) == 0
  {
    if letters != [] {
      EmptyBuckets(letters[1..]);
    }
  }

  // ---------------------------------------------------------------------
  // the week boundaries of home_page

  /** The day numbers of this week's Monday, next week's and the one after. */
  datatype Weeks = Weeks(thisWeek: int, nextWeek: int, weekAfterNext: int)

  /** `today - timedelta(days=today.weekday())`, then twice `+ one_week`;
      None where a sum passes `date.max` (OverflowError). */
  function WeekStarts(today: int): (r: Option<Weeks>)
    requires 1 <= today <= MaxOrdinal
    ensures r.None? <==> today - Weekday(today) + 14 > MaxOrdinal
    ensures r.Some? ==> && 1 <= r.value.thisWeek
                        && Weekday(r.value.thisWeek) == 0
                        && r.value.thisWeek <= today <= r.value.thisWeek + 6
                        && r.value.nextWeek == r.value.thisWeek + 7
                        && r.value.weekAfterNext == r.value.nextWeek + 7
                        && r.value.weekAfterNext <= MaxOrdinal
  {
    var start := today - Weekday(today);
    if start + 7 > MaxOrdinal || start + 14 > MaxOrdinal then None
    else Some(Weeks(start, start + 7, start + 14))
  }

  /** This week's Monday is the only Monday of the seven days ending
      today. */
  lemma ThisMondayUnique(today: int, monday: int)
    requires 1 <= today <= MaxOrdinal && WeekStarts(today).Some?
    requires Weekday(monday) == 0 && today - 6 <= monday <= today
    ensures monday == WeekStarts(today).value.thisWeek
  {
  }

  /** Every day from this week's Monday to the next Monday belongs to the
      same week: its own Monday is this week's, and its weekday is the
      distance from it. */
  lemma SameWeek(today: int, d: int)
    requires 1 <= today <= MaxOrdinal && WeekStarts(today).Some?
    requires WeekStarts(today).value.thisWeek <= d < WeekStarts(today).value.nextWeek
    ensures d - Weekday(d) == WeekStarts(today).value.thisWeek
    ensures Weekday(d) == d - WeekStarts(today).value.thisWeek
  {
  }

  /** `gigs_this_week`: upcoming and before next week's Monday. */
  predicate ThisWeekGig(g: Gig, today: Date, weeks: Weeks)
    requires ValidDate(g.date)
  {
    IsUpcoming(g, today) && ToOrdinal(g.date) < weeks.nextWeek
  }

  /** `gigs_next_week`: published, from next week's Monday up to the
      Monday after. */
  predicate NextWeekGig(g: Gig, weeks: Weeks)
    requires ValidDate(g.date)
  {
    g.published && weeks.nextWeek <= ToOrdinal(g.date) < weeks.weekAfterNext
  }

  /** The days from today up to next week's Monday are today's weekday or
      later in the week; the days of next week have weekdays 0 to 6 from
      its Monday. */
  lemma WeekDays(today: int, d: int)
    requires 1 <= today <= MaxOrdinal && WeekStarts(today).Some?
    ensures var weeks := WeekStarts(today).value;
      today <= d < weeks.nextWeek ==> d <= weeks.thisWeek + 6 && Weekday(today) <= Weekday(d)
    ensures var weeks := WeekStarts(today).value;
      weeks.nextWeek <= d < weeks.weekAfterNext ==> Weekday(d) == d - weeks.nextWeek
  {
    var weeks := WeekStarts(today).value;
    if today <= d < weeks.nextWeek {
      SameWeek(today, d);
      SameWeek(today, today);
    }
  }

  /** This week's gigs run from today to Sunday, next week's from Monday
      to Sunday of the week after, and no gig is in both lists. */
  lemma WeekLists(g: Gig, today: Date)
    requires ValidDate(g.date) && ValidDate(today)
    requires WeekStarts(OrdinalOf(today)).Some?
    ensures var t, d := OrdinalOf(today), OrdinalOf(g.date);
      var weeks := WeekStarts(t).value;
      ThisWeekGig(g, today, weeks) ==> t <= d <= weeks.thisWeek + 6 && Weekday(t) <= Weekday(d)
    ensures var t, d := OrdinalOf(today), OrdinalOf(g.date);
      var weeks := WeekStarts(t).value;
      NextWeekGig(g, weeks) ==> Weekday(d) == d - weeks.nextWeek
    ensures var weeks := WeekStarts(OrdinalOf(today)).value;
      !(ThisWeekGig(g, today, weeks) && NextWeekGig(g, weeks))
  {
    FinishedByDayNumber(g, today);
    WeekDays(OrdinalOf(today), OrdinalOf(g.date));
  }

  /** `d.toordinal()` of a valid date, with its range. */
  function OrdinalOf(d: Date): (n: int)
    requires ValidDate(d)
    ensures 1 <= n <= MaxOrdinal && n == ToOrdinal(d)
  {
    OrdinalRange(d);
    ToOrdinal(d)
  }
}
