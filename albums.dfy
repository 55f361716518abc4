/** `Artist.populate_album_set` (models.py): turning the official album
    releases MusicBrainz lists for an artist into `Album` rows.  Releases
    without an Amazon ASIN are skipped, an ASIN already stored creates
    nothing, and a new album takes its country and release date from the
    first of the British, world-wide and American release events, with a
    partial date padded to the first of the month or year. */
module Albums {
  import opened Base
  import opened Dates
  import opened Models

  /** A release event: a country code and a date text ("2010",
      "2010-02" or "2010-02-18" when well formed). */
  datatype ReleaseEvent = ReleaseEvent(country: string, date: string)

  /** A MusicBrainz release: its URI-shaped id, title, ASIN ("" when it
      has none) and release events. */
  datatype Release = Release(id: string, title: string, asin: string, events: seq<ReleaseEvent>)

  /** An `Album` row; `releasedIn` is "" and `releaseDate` None when unset. */
  datatype Album = Album(artist: Id, title: string, asin: string, mbid: string,
                         releasedIn: string, releaseDate: Option<Date>)

  /** The exceptions that end a run: the id has no "/" (IndexError), a
      date piece is not an integer (ValueError raised outside the guarded
      block), a date has more than three pieces (TypeError) or a piece too
      large for a C int (OverflowError), `Album.objects.get(asin=...)` finds
      several albums (MultipleObjectsReturned), or the new album's mbid is
      taken (the unique constraint on `Album.mbid`). */
  datatype AlbumError =
    | NoMbid(id: string)
    | BadDateNumber(raw: string)
    | TooManyDateParts(raw: string)
    | DateOverflow(raw: string)
    | AmbiguousAsin(asin: string)
    | DuplicateMbid(mbid: string)

  // ---------------------------------------------------------------------
  // release dates and the country preference

  /** `dict((r.country, r.date) for r in album.releaseEvents)`: a later
      event for the same country overrides an earlier one. */
  function ReleaseDates(events: seq<ReleaseEvent>): map<string, string>
  {
    if events == [] then map[]
    else
      var last := events[|events| - 1];
      ReleaseDates(events[..|events| - 1])[last.country := last.date]
  }

  /** `date` is the date of the last event for country `c`. */
  ghost predicate LastDateFor(events: seq<ReleaseEvent>, c: string, date: string)
  {
    exists k :: 0 <= k < |events| && events[k] == ReleaseEvent(c, date)
      && forall j :: k < j < |events| ==> events[j].country != c
  }

  /** Every country of an event is a key of the dictionary. */
  lemma {:induction false} ReleaseDatesKeys(events: seq<ReleaseEvent>)
    ensures forall k :: 0 <= k < |events| ==> events[k].country in ReleaseDates(events)
  {
    if events != [] {
      var n := |events| - 1;
      var init := events[..n];
      ReleaseDatesKeys(init);
      forall k | 0 <= k < n ensures events[k].country in ReleaseDates(events) {
        assert events[k] == init[k];
      }
    }
  }

  /** Every key of the dictionary holds the date of the last event for
      that country. */
  lemma {:induction false} ReleaseDatesLast(events: seq<ReleaseEvent>)
    ensures forall c :: c in ReleaseDates(events) ==> LastDateFor(events, c, ReleaseDates(events)[c])
  {
    if events != [] {
      var n := |events| - 1;
      var init := events[..n];
      ReleaseDatesLast(init);
      var r0 := ReleaseDates(init);
      var r := ReleaseDates(events);
      assert r == r0[events[n].country := events[n].date];
      forall c | c in r ensures LastDateFor(events, c, r[c]) {
        if c == events[n].country {
          assert events[n] == ReleaseEvent(c, r[c]);
        } else {
          assert c in r0 && r[c] == r0[c];
          LastDateExtends(events, c, r0[c]);
        }
      }
    }
  }

  /** An event for another country keeps the last date for `c`. */
  lemma LastDateExtends(events: seq<ReleaseEvent>, c: string, date: string)
    requires events != [] && events[|events| - 1].country != c
    requires LastDateFor(events[..|events| - 1], c, date)
    ensures LastDateFor(events, c, date)
  {
    var init := events[..|events| - 1];
    var k :| 0 <= k < |init| && init[k] == ReleaseEvent(c, date)
      && forall j :: k < j < |init| ==> init[j].country != c;
    assert events[k] == init[k];
    assert forall j :: k < j < |init| ==> events[j] == init[j];
  }

  /** The release locations in order of preference: GB (United Kingdom),
      then XE (world wide), then US (United States). */
  const Preference: seq<string> := ["GB", "XE", "US"]

  /** The first of `prefs` that `dates` holds, if any. */
  function FirstPresent(prefs: seq<string>, dates: map<string, string>): (r: Option<string>)
    ensures r.None? <==> forall k :: 0 <= k < |prefs| ==> prefs[k] !in dates
    ensures r.Some? ==>
              exists k :: 0 <= k < |prefs| && prefs[k] == r.value && r.value in dates
                && forall j :: 0 <= j < k ==> prefs[j] !in dates
  {
    if prefs == [] then None
    else if prefs[0] in dates then Some(prefs[0])
    else
      var r := FirstPresent(prefs[1..], dates);
      assert forall k :: 1 <= k < |prefs| ==> prefs[k] == prefs[1..][k - 1];
      r
  }

  /** The country a new album is marked as released in. */
  function PreferredCountry(dates: map<string, string>): Option<string>
  {
    FirstPresent(Preference, dates)
  }

  /** GB wins over XE and US, XE over US, and with none of them no country
      is chosen (whatever other countries are listed). */
  lemma PreferredCountryOrder(dates: map<string, string>)
    ensures "GB" in dates ==> PreferredCountry(dates) == Some("GB")
    ensures "GB" !in dates && "XE" in dates ==> PreferredCountry(dates) == Some("XE")
    ensures "GB" !in dates && "XE" !in dates && "US" in dates ==> PreferredCountry(dates) == Some("US")
    ensures "GB" !in dates && "XE" !in dates && "US" !in dates ==> PreferredCountry(dates) == None
  {
    var r := PreferredCountry(dates);
    assert Preference[0] == "GB" && Preference[1] == "XE" && Preference[2] == "US";
    if r.Some? {
      var k :| 0 <= k < 3 && Preference[k] == r.value && r.value in dates
               && forall j :: 0 <= j < k ==> Preference[j] !in dates;
      assert k == 0 || Preference[0] !in dates;
      assert k <= 1 || Preference[1] !in dates;
    }
  }

  /** The loop over ('GB', 'XE', 'US') that stops at the first country with
      a release date. */
  method PickCountry(dates: map<string, string>) returns (c: Option<string>)
    ensures c == PreferredCountry(dates)
  {
    c := None;
    for i := 0 to |Preference|
      invariant FirstPresent(Preference, dates) == FirstPresent(Preference[i..], dates)
    {
      assert Preference[i..][1..] == Preference[i + 1..];
      if Preference[i] in dates {
        c := Some(Preference[i]);
        return;
      }
    }
  }

  // ---------------------------------------------------------------------
  // padding a release date

  /** The range of a C `int`, into which `datetime.date` converts its
      arguments. */
  const CIntMin: int := -0x8000_0000
  const CIntMax: int := 0x7FFF_FFFF

  /** `map(int, pieces)`: None when some piece is not an integer. */
  function ParseInts(pieces: seq<string>): Option<seq<int>>
  {
    if forall k :: 0 <= k < |pieces| ==> ParseInt(pieces[k]).Some? then
      Some(seq(|pieces|, k requires 0 <= k < |pieces| && ParseInt(pieces[k]).Some? => ParseInt(pieces[k]).value))
    else None
  }

  /** `[1] * n`. */
  function Ones(n: int): (r: seq<int>)
    ensures |r| == if n < 0 then 0 else n
    ensures forall k :: 0 <= k < |r| ==> r[k] == 1
    decreases n
  {
    if n <= 0 then [] else [1] + Ones(n - 1)
  }

  predicate InCInt(n: int)
  {
    CIntMin <= n <= CIntMax
  }

  /** `datetime.date(*date_list + [1] * (3 - len(date_list)))`: Ok(None)
      where the date constructor raises the ValueError the code catches,
      an error for each exception it does not catch. */
  function PadInts(raw: string, ns: seq<int>): (r: Result<Option<Date>, AlbumError>)
  {
    if |ns| > 3 then Err(TooManyDateParts(raw))
    else
      var args := ns + Ones(3 - |ns|);
      if !(InCInt(args[0]) && InCInt(args[1]) && InCInt(args[2])) then Err(DateOverflow(raw))
      else Ok(MakeDate(args[0], args[1], args[2]))
  }

  /** The release date made from the text `raw`, where
      `date_list = map(int, raw.split('-'))`. */
  function PadDate(raw: string): Result<Option<Date>, AlbumError>
  {
    match ParseInts(Split(raw, '-'))
    case None => Err(BadDateNumber(raw))
    case Some(ns) => PadInts(raw, ns)
  }

  /** The values of runs of decimal digits. */
  function DigitValues(pieces: seq<string>): (ns: seq<int>)
    requires forall k :: 0 <= k < |pieces| ==> AllDigits(pieces[k])
    ensures |ns| == |pieces| && forall k :: 0 <= k < |pieces| ==> ns[k] == DigitsValue(pieces[k])
  {
    if pieces == [] then [] else [DigitsValue(pieces[0])] + DigitValues(pieces[1..])
  }

  /** Runs of digits joined with "-" split back into the runs. */
  lemma {:induction false} SplitJoinedDigits(pieces: seq<string>)
    requires 1 <= |pieces|
    requires forall k :: 0 <= k < |pieces| ==> AllDigits(pieces[k])
    ensures Split(Join(pieces, '-'), '-') == pieces
    decreases |pieces|
  {
    assert forall i :: 0 <= i < |pieces[0]| ==> pieces[0][i] != '-';
    if |pieces| > 1 {
      SplitJoinedDigits(pieces[1..]);
      SplitFirst(pieces[0], Join(pieces[1..], '-'), '-');
      assert [pieces[0]] + pieces[1..] == pieces;
    }
  }

  /** Non-empty runs of digits read as their values. */
  lemma ParseDigitPieces(pieces: seq<string>)
    requires forall k :: 0 <= k < |pieces| ==> pieces[k] != [] && AllDigits(pieces[k])
    ensures ParseInts(pieces) == Some(DigitValues(pieces))
  {
    forall k | 0 <= k < |pieces|
      ensures ParseInt(pieces[k]) == Some(DigitValues(pieces)[k])
    {
      ParseIntDigits(pieces[k]);
    }
    assert ParseInts(pieces).value == DigitValues(pieces);
  }

  /** Runs of digits joined with "-" read back as their values. */
  lemma ParseJoinedDigits(pieces: seq<string>)
    requires 1 <= |pieces|
    requires forall k :: 0 <= k < |pieces| ==> pieces[k] != [] && AllDigits(pieces[k])
    ensures Split(Join(pieces, '-'), '-') == pieces
    ensures ParseInts(pieces) == Some(DigitValues(pieces))
  {
    SplitJoinedDigits(pieces);
    ParseDigitPieces(pieces);
  }

  lemma JoinThree(ys: string, ms: string, ds: string)
    ensures Join([ys, ms, ds], '-') == ys + "-" + ms + "-" + ds
  {
    assert [ys, ms, ds][1..] == [ms, ds] && [ms, ds][1..] == [ds];
    assert Join([ms, ds], '-') == ms + ['-'] + ds;
  }

  lemma DigitValuesThree(ys: string, ms: string, ds: string)
    requires AllDigits(ys) && AllDigits(ms) && AllDigits(ds)
    ensures DigitValues([ys, ms, ds]) == [DigitsValue(ys), DigitsValue(ms), DigitsValue(ds)]
  {
    assert [ys, ms, ds][1..] == [ms, ds] && [ms, ds][1..] == [ds];
    assert DigitValues([ds]) == [DigitsValue(ds)];
    assert DigitValues([ms, ds]) == [DigitsValue(ms), DigitsValue(ds)];
  }

  /** Three runs of digits joined with "-" split and read back as their
      values. */
  lemma ParseThreePieces(ys: string, ms: string, ds: string)
    requires ys != [] && ms != [] && ds != [] && AllDigits(ys) && AllDigits(ms) && AllDigits(ds)
    ensures ParseInts(Split(ys + "-" + ms + "-" + ds, '-'))
              == Some([DigitsValue(ys), DigitsValue(ms), DigitsValue(ds)])
  {
    ParseJoinedDigits([ys, ms, ds]);
    JoinThree(ys, ms, ds);
    DigitValuesThree(ys, ms, ds);
  }

  /** Three runs of digits joined with "-" give the date they name. */
  lemma PadThreePieces(ys: string, ms: string, ds: string)
    requires ys != [] && ms != [] && ds != [] && AllDigits(ys) && AllDigits(ms) && AllDigits(ds)
    requires DigitsValue(ys) <= CIntMax && DigitsValue(ms) <= CIntMax && DigitsValue(ds) <= CIntMax
    ensures PadDate(ys + "-" + ms + "-" + ds)
              == Ok(MakeDate(DigitsValue(ys), DigitsValue(ms), DigitsValue(ds)))
  {
    var raw := ys + "-" + ms + "-" + ds;
    ParseThreePieces(ys, ms, ds);
    PadDateOf(raw, [DigitsValue(ys), DigitsValue(ms), DigitsValue(ds)]);
    PadThree(raw, DigitsValue(ys), DigitsValue(ms), DigitsValue(ds));
  }

  lemma PadDateOf(raw: string, ns: seq<int>)
    requires ParseInts(Split(raw, '-')) == Some(ns)
    ensures PadDate(raw) == PadInts(raw, ns)
  {
  }

  lemma PadThree(raw: string, y: int, m: int, d: int)
    requires InCInt(y) && InCInt(m) && InCInt(d)
    ensures PadInts(raw, [y, m, d]) == Ok(MakeDate(y, m, d))
  {
    assert [y, m, d] + Ones(0) == [y, m, d];
  }

  /** A date written out by `str(date)` pads back to itself. */
  lemma PadIsoDate(d: Date)
    requires ValidDate(d)
    ensures PadDate(IsoFormat(d)) == Ok(Some(d))
  {
    PadThreePieces(Digits4(d.year), Digits2(d.month), Digits2(d.day));
  }

  /** A year alone is padded to the first of January. */
  lemma PadYear(y: nat)
    requires y <= CIntMax
    ensures PadDate(NatToString(y)) == Ok(MakeDate(y, 1, 1))
  {
    var ys := NatToString(y);
    ParseJoinedDigits([ys]);
    assert DigitValues([ys]) == [y];
    assert Ones(2) == [1, 1];
  }

  /** A year and month are padded to the first of the month. */
  lemma PadYearMonth(y: nat, m: nat)
    requires y <= CIntMax && m <= CIntMax
    ensures PadDate(NatToString(y) + "-" + NatToString(m)) == Ok(MakeDate(y, m, 1))
  {
    var ys, ms := NatToString(y), NatToString(m);
    assert [ys, ms][1..] == [ms];
    ParseJoinedDigits([ys, ms]);
    assert Join([ys, ms], '-') == ys + "-" + ms;
    assert DigitValues([ys, ms]) == [y, m];
    assert Ones(1) == [1];
  }

  /** A full date is taken as it is. */
  lemma PadFullDate(y: nat, m: nat, d: nat)
    requires y <= CIntMax && m <= CIntMax && d <= CIntMax
    ensures PadDate(NatToString(y) + "-" + NatToString(m) + "-" + NatToString(d))
              == Ok(MakeDate(y, m, d))
  {
    PadThreePieces(NatToString(y), NatToString(m), NatToString(d));
  }

  /** A date that does not exist is padded to nothing: February 2010 has
      no thirtieth. */
  lemma PadImpossibleDate()
    ensures PadDate(NatToString(2010) + "-" + NatToString(2) + "-" + NatToString(30)) == Ok(None)
  {
    PadFullDate(2010, 2, 30);
    assert !ValidDate(Date(2010, 2, 30));
  }

  // ---------------------------------------------------------------------
  // a new album

  /** The `Album` built for `release` when its ASIN is not yet stored:
      mbid is the part of the id after its last "/"; released in the
      preferred country, with that country's date padded. */
  function NewAlbum(artist: Id, release: Release): (r: Result<Album, AlbumError>)
    ensures r.Ok? ==> (r.value.artist == artist && r.value.title == release.title
      && r.value.asin == release.asin && '/' !in r.value.mbid
      && EndsWith(release.id, ['/'] + r.value.mbid))
    ensures r.Ok? && r.value.releasedIn == "" ==> r.value.releaseDate.None?
    // an album is built unless the id has no "/" (IndexError) or the
    // preferred country's date does not read as numbers (ValueError)
    ensures '/' !in release.id ==> r == Err(NoMbid(release.id))
    ensures var dates := ReleaseDates(release.events);
      r.Err? <==> ('/' !in release.id
                   || (PreferredCountry(dates).Some? && PreferredCountry(dates).value in dates
                       && PadDate(dates[PreferredCountry(dates).value]).Err?))
  {
    match RSplitLast(release.id, '/')
    case None => Err(NoMbid(release.id))
    case Some((before, mbid)) =>
      assert release.id == before + (['/'] + mbid);
      var base := Album(artist, release.title, release.asin, mbid, "", None);
      var dates := ReleaseDates(release.events);
      match PreferredCountry(dates)
      case None => Ok(base)
      case Some(c) =>
        match PadDate(dates[c])
        case Err(e) => Err(e)
        case Ok(d) => Ok(base.(releasedIn := c, releaseDate := d))
  }

  /** No preferred country is chosen exactly when no release event is in
      one of the preferred countries. */
  lemma PreferredCountryEvents(events: seq<ReleaseEvent>)
    ensures PreferredCountry(ReleaseDates(events)).None? <==>
              forall k :: 0 <= k < |events| ==> events[k].country !in Preference
  {
    ReleaseDatesKeys(events);
    ReleaseDatesLast(events);
    var dates := ReleaseDates(events);
    if k :| 0 <= k < |events| && events[k].country in Preference {
      var j :| 0 <= j < |Preference| && Preference[j] == events[k].country;
      assert Preference[j] in dates;
    } else {
      forall j | 0 <= j < |Preference| ensures Preference[j] !in dates {
      }
    }
  }

  /** A new album is marked as released in a preferred country exactly
      when one of its events is in one; it is then the preferred one, and
      the date is that country's last date, padded (unset when it names no
      real date). */
  lemma NewAlbumRelease(artist: Id, release: Release)
    requires NewAlbum(artist, release).Ok?
    ensures var a := NewAlbum(artist, release).value;
      a.releasedIn == "" <==> forall k :: 0 <= k < |release.events| ==> release.events[k].country !in Preference
    ensures var a := NewAlbum(artist, release).value;
      var dates := ReleaseDates(release.events);
      a.releasedIn != "" ==> (Some(a.releasedIn) == PreferredCountry(dates)
        && PadDate(dates[a.releasedIn]) == Ok(a.releaseDate))
  {
    PreferredCountryEvents(release.events);
    assert forall k :: 0 <= k < |Preference| ==> Preference[k] != "";
  }

  /** The body of the loop in `populate_album_set` up to `db_album.save()`:
      builds the album for a release, choosing the country by a loop. */
  method BuildAlbum(artist: Id, release: Release) returns (r: Result<Album, AlbumError>)
    ensures r == NewAlbum(artist, release)
  {
    var split := RSplitLast(release.id, '/');
    if split.None? {
      return Err(NoMbid(release.id));
    }
    var album := Album(artist, release.title, release.asin, split.value.1, "", None);
    var dates := ReleaseDates(release.events);
    var country := PickCountry(dates);
    if country.Some? {
      var c := country.value;
      var date := PadDate(dates[c]);
      if date.Err? {
        return Err(date.error);
      }
      album := album.(releasedIn := c, releaseDate := date.value);
    }
    r := Ok(album);
  }

  // ---------------------------------------------------------------------
  // the album table

  /** The `Album` table and the next primary key. */
  datatype AlbumTable = AlbumTable(albums: map<Id, Album>, nextId: Id)

  ghost predicate AlbumKeysBelow(t: AlbumTable)
  {
    forall i :: i in t.albums ==> i < t.nextId
  }

  /** Some stored album has this ASIN. */
  predicate HasAsin(albums: map<Id, Album>, asin: string)
  {
    exists i :: i in albums && albums[i].asin == asin
  }

  /** Two stored albums share this ASIN. */
  predicate AsinAmbiguous(albums: map<Id, Album>, asin: string)
  {
    exists i, j :: i in albums && j in albums && i != j && albums[i].asin == asin && albums[j].asin == asin
  }

  /** Some stored album has this mbid. */
  predicate HasMbid(albums: map<Id, Album>, mbid: string)
  {
    exists i :: i in albums && albums[i].mbid == mbid
  }

  /** No two stored albums share a non-empty ASIN. */
  ghost predicate AsinsUnique(albums: map<Id, Album>)
  {
    forall i, j :: i in albums && j in albums && i != j && albums[i].asin != [] ==> albums[i].asin != albums[j].asin
  }

  /** One pass of the loop: what the table becomes after `release`, or
      the exception that ends the run. */
  function AddRelease(t: AlbumTable, artist: Id, release: Release): (r: Result<AlbumTable, AlbumError>)
  {
    if release.asin == [] then Ok(t)
    else if AsinAmbiguous(t.albums, release.asin) then Err(AmbiguousAsin(release.asin))
    else if HasAsin(t.albums, release.asin) then Ok(t)
    else AddNew(t, artist, release)
  }

  /** Saving the album built for a release whose ASIN is not stored. */
  function AddNew(t: AlbumTable, artist: Id, release: Release): Result<AlbumTable, AlbumError>
  {
    AddBuilt(t, NewAlbum(artist, release))
  }

  /** Saving an album once it is built: refused when its mbid is taken. */
  function AddBuilt(t: AlbumTable, built: Result<Album, AlbumError>): Result<AlbumTable, AlbumError>
  {
    match built
    case Err(e) => Err(e)
    case Ok(a) =>
      if HasMbid(t.albums, a.mbid) then Err(DuplicateMbid(a.mbid))
      else Ok(AlbumTable(t.albums[t.nextId := a], t.nextId + 1))
  }

  /** A run's verdict and the table it leaves; albums saved before an
      exception stay saved. */
  datatype Outcome = Outcome(result: Result<(), AlbumError>, table: AlbumTable)

  /** The loop over `releases`. */
  function Populate(t: AlbumTable, artist: Id, releases: seq<Release>): Outcome
    decreases |releases|
  {
    if releases == [] then Outcome(Ok(()), t)
    else match AddRelease(t, artist, releases[0])
      case Err(e) => Outcome(Err(e), t)
      case Ok(t1) => Populate(t1, artist, releases[1..])
  }

  /** A pass keeps every stored album, adds at most one album, of this
      artist, for a release with an ASIN not stored before, and keeps
      ASINs unique. */
  lemma AddReleaseGrows(t: AlbumTable, artist: Id, release: Release)
    requires AlbumKeysBelow(t) && AddRelease(t, artist, release).Ok?
    ensures var t1 := AddRelease(t, artist, release).value;
      && AlbumKeysBelow(t1) && t.nextId <= t1.nextId <= t.nextId + 1
      && (forall i :: i in t.albums ==> i in t1.albums && t1.albums[i] == t.albums[i])
      && (forall i :: i in t1.albums && i !in t.albums ==>
            t1.albums[i].artist == artist && t1.albums[i].asin == release.asin != []
            && !HasAsin(t.albums, release.asin))
      && (release.asin != [] ==> HasAsin(t1.albums, release.asin))
      && (AsinsUnique(t.albums) ==> AsinsUnique(t1.albums))
  {
    var t1 := AddRelease(t, artist, release).value;
    if t1 != t {
      var a := t1.albums[t.nextId];
      assert a.asin == release.asin;
      assert HasAsin(t1.albums, release.asin) by {
        assert t.nextId in t1.albums;
      }
    }
  }

  /** A run keeps every album stored before it and creates at most one
      album per release, each for this artist and for an ASIN of one of
      the releases that was not stored before; it keeps ASINs unique. */
  lemma {:induction false} PopulateGrows(t: AlbumTable, artist: Id, releases: seq<Release>)
    requires AlbumKeysBelow(t)
    ensures var t1 := Populate(t, artist, releases).table;
      && AlbumKeysBelow(t1) && t.nextId <= t1.nextId <= t.nextId + |releases|
      && (forall i :: i in t.albums ==> i in t1.albums && t1.albums[i] == t.albums[i])
      && (forall i :: i in t1.albums && i !in t.albums ==>
            t1.albums[i].artist == artist && t1.albums[i].asin != [] && !HasAsin(t.albums, t1.albums[i].asin)
            && exists k :: 0 <= k < |releases| && releases[k].asin == t1.albums[i].asin)
      && (AsinsUnique(t.albums) ==> AsinsUnique(t1.albums))
    decreases |releases|
  {
    if releases != [] {
      var step := AddRelease(t, artist, releases[0]);
      if step.Ok? {
        var t0 := step.value;
        AddReleaseGrows(t, artist, releases[0]);
        PopulateGrows(t0, artist, releases[1..]);
        var t1 := Populate(t, artist, releases).table;
        assert t1 == Populate(t0, artist, releases[1..]).table;
        forall i | i in t1.albums && i !in t.albums
          ensures exists k :: 0 <= k < |releases| && releases[k].asin == t1.albums[i].asin
          ensures !HasAsin(t.albums, t1.albums[i].asin)
        {
          if i in t0.albums {
            assert releases[0].asin == t1.albums[i].asin;
          } else {
            var k :| 0 <= k < |releases[1..]| && releases[1..][k].asin == t1.albums[i].asin;
            assert releases[k + 1].asin == t1.albums[i].asin;
          }
        }
      }
    }
  }

  /** Every release with an ASIN has its ASIN stored. */
  ghost predicate AllStored(albums: map<Id, Album>, releases: seq<Release>)
  {
    forall k :: 0 <= k < |releases| && releases[k].asin != [] ==> HasAsin(albums, releases[k].asin)
  }

  /** When every ASIN of the releases is already stored once, a run
      succeeds and creates nothing. */
  lemma {:induction false} PopulateStoredNothing(t: AlbumTable, artist: Id, releases: seq<Release>)
    requires AsinsUnique(t.albums) && AllStored(t.albums, releases)
    ensures Populate(t, artist, releases) == Outcome(Ok(()), t)
    decreases |releases|
  {
    if releases != [] {
      var asin := releases[0].asin;
      if asin != [] {
        assert !AsinAmbiguous(t.albums, asin);
      }
      assert AllStored(t.albums, releases[1..]) by {
        forall k | 0 <= k < |releases[1..]| && releases[1..][k].asin != []
          ensures HasAsin(t.albums, releases[1..][k].asin)
        {
          assert releases[1..][k] == releases[k + 1];
        }
      }
      PopulateStoredNothing(t, artist, releases[1..]);
    }
  }

  /** After a successful run every ASIN of the releases is stored. */
  lemma {:induction false} PopulateStoresAll(t: AlbumTable, artist: Id, releases: seq<Release>)
    requires AlbumKeysBelow(t) && Populate(t, artist, releases).result.Ok?
    ensures AllStored(Populate(t, artist, releases).table.albums, releases)
    decreases |releases|
  {
    if releases != [] {
      var t0 := AddRelease(t, artist, releases[0]).value;
      AddReleaseGrows(t, artist, releases[0]);
      PopulateStoresAll(t0, artist, releases[1..]);
      PopulateGrows(t0, artist, releases[1..]);
      var t1 := Populate(t, artist, releases).table;
      forall k | 0 <= k < |releases| && releases[k].asin != []
        ensures HasAsin(t1.albums, releases[k].asin)
      {
        if k == 0 {
          var i :| i in t0.albums && t0.albums[i].asin == releases[0].asin;
          assert t1.albums[i] == t0.albums[i];
        } else {
          assert releases[k] == releases[1..][k - 1];
        }
      }
    }
  }

  /** Importing the same releases a second time creates nothing. */
  lemma PopulateIdempotent(t: AlbumTable, artist: Id, releases: seq<Release>)
    requires AlbumKeysBelow(t) && AsinsUnique(t.albums)
    requires Populate(t, artist, releases).result.Ok?
    ensures var t1 := Populate(t, artist, releases).table;
      Populate(t1, artist, releases) == Outcome(Ok(()), t1)
  {
    PopulateGrows(t, artist, releases);
    PopulateStoresAll(t, artist, releases);
    PopulateStoredNothing(Populate(t, artist, releases).table, artist, releases);
  }

  /** The `Album` table as the ORM holds it. */
  class AlbumStore {
    var albums: map<Id, Album>
    var nextId: Id

    function Contents(): AlbumTable
      reads this
    {
      AlbumTable(albums, nextId)
    }

    ghost predicate Valid()
      reads this
    {
      AlbumKeysBelow(Contents())
    }

    constructor ()
      ensures Valid() && albums == map[] && nextId == 0
    {
      albums, nextId := map[], 0;
    }

    /** One pass of the loop in `populate_album_set`: nothing for a release
        without an ASIN or with a stored one, else the new album saved. */
    method AddAlbum(artist: Id, release: Release) returns (r: Result<(), AlbumError>)
      requires Valid()
      modifies this
      ensures Valid()
      ensures r.Ok? ==> AddRelease(old(Contents()), artist, release) == Ok(Contents())
      ensures r.Err? ==> AddRelease(old(Contents()), artist, release) == Err(r.error)
                         && Contents() == old(Contents())
    {
      r := Ok(());
      if release.asin == [] {
        return;
      }
      if i :| i in albums && albums[i].asin == release.asin {
        if j :| j in albums && j != i && albums[j].asin == release.asin {
          return Err(AmbiguousAsin(release.asin));
        }
        assert !AsinAmbiguous(albums, release.asin);
        return;
      }
      r := SaveNewAlbum(artist, release);
    }

    /** `Album(...)` built for a release whose ASIN is not stored, then
        `db_album.save()`. */
    method SaveNewAlbum(artist: Id, release: Release) returns (r: Result<(), AlbumError>)
      requires Valid()
      modifies this
      ensures Valid()
      ensures r.Ok? ==> AddNew(old(Contents()), artist, release) == Ok(Contents())
      ensures r.Err? ==> AddNew(old(Contents()), artist, release) == Err(r.error)
                         && Contents() == old(Contents())
    {
      ghost var t := Contents();
      var built := BuildAlbum(artist, release);
      if built.Err? {
        return Err(built.error);
      }
      var album := built.value;
      if HasMbid(albums, album.mbid) {
        return Err(DuplicateMbid(album.mbid));
      }
      albums := albums[nextId := album];
      nextId := nextId + 1;
      assert Contents() == AlbumTable(t.albums[t.nextId := album], t.nextId + 1);
      r := Ok(());
    }

    /** `artist.populate_album_set()` over the releases MusicBrainz lists
        for the artist: each release is handled in order until the end or
        the first exception. */
    method PopulateAlbumSet(artist: Id, releases: seq<Release>) returns (r: Result<(), AlbumError>)
      requires Valid()
      modifies this
      ensures Valid()
      ensures Outcome(r, Contents()) == Populate(old(Contents()), artist, releases)
    {
      var k := 0;
      while k < |releases|
        invariant 0 <= k <= |releases| && Valid()
        invariant Populate(Contents(), artist, releases[k..]) == Populate(old(Contents()), artist, releases)
      {
        assert releases[k..][1..] == releases[k + 1..];
        r := AddAlbum(artist, releases[k]);
        if r.Err? {
          return;
        }
        k := k + 1;
      }
      r := Ok(());
    }
  }
}
