/** The Ripping Records import command (`handle_noargs`): the row scan
    that carries the current month from header rows into gig rows, the
    reconciliation of scraped labels with canonical records through
    import identifiers, the gig upsert, and the final counter refresh. */
module RippingImport {
  import opened Base
  import opened Dates
  import opened Models
  import opened RippingParse

  /** A CSV row: its cells, as text. */
  type Row = seq<string>

  /** The exceptions that end the scan. */
  datatype ScanError =
    | UnknownMonth(name: string)                  // KeyError from MONTHS[...]
    | DateCellUnmatched(cell: string)             // AttributeError: DATE_RE did not match
    | InvalidDate(year: int, month: int, day: int) // ValueError from datetime.date
    | GigCellsRejected(error: CellError)          // UnicodeDecodeError or AttributeError inside RippedGig

  /** What one row does to the scan. */
  datatype RowEffect = Ignore | NewMonth(month: int) | Emit(gig: RippedGig)

  /** A row that is read as a gig: four or more cells, and not the table
      header (`*DATE*`) or the spreadsheet's padding (`--`). */
  predicate IsGigRow(row: Row)
  {
    |row| >= 4 && row[0] != "*DATE*" && row[0] != "--"
  }

  // ---------------------------------------------------------------------
  // The row scan

  /** One pass of the row loop with `current_month == month`. */
  function ReadRow(row: Row, year: int, month: int): (r: Result<RowEffect, ScanError>)
    // a short row never yields a gig; an empty or unmatched one is ignored
    ensures |row| < 4 && r.Ok? ==> !r.value.Emit?
    ensures row == [] ==> r == Ok(Ignore)
    ensures 0 < |row| < 4 && MatchMonthHeader(row[0]).None? ==> r == Ok(Ignore)
    // the month changes only on a header row naming it in capitals
    ensures r.Ok? && r.value.NewMonth? ==>
              && 0 < |row| < 4 && 1 <= r.value.month <= 12
              && MatchMonthHeader(row[0]) == Some(MonthNames[r.value.month - 1])
    // four or more cells: the header and padding rows yield nothing
    ensures |row| >= 4 && !IsGigRow(row) ==> r == Ok(Ignore)
    // a gig row yields a gig or stops the scan, and its date is in the
    // current month of the given year
    ensures IsGigRow(row) && r.Ok? ==> r.value.Emit?
    ensures r.Ok? && r.value.Emit? ==>
              && ValidDate(r.value.gig.date)
              && r.value.gig.date.year == year && r.value.gig.date.month == month
              && MakeUsable(row[1]) == Some(r.value.gig.artist)
              && !(r.value.gig.soldOut && r.value.gig.cancelled)
  {
    if |row| < 4 then ReadShortRow(row)
    else if !IsGigRow(row) then Ok(Ignore)
    else ReadGigRow(row, year, month)
  }

  /** A row of fewer than four cells: a month header, or nothing. */
  function ReadShortRow(row: Row): (r: Result<RowEffect, ScanError>)
    requires |row| < 4
    ensures r.Ok? ==> !r.value.Emit?
    ensures row == [] ==> r == Ok(Ignore)
    ensures row != [] && MatchMonthHeader(row[0]).None? ==> r == Ok(Ignore)
    ensures r.Ok? && r.value.NewMonth? ==>
              && row != [] && 1 <= r.value.month <= 12
              && MatchMonthHeader(row[0]) == Some(MonthNames[r.value.month - 1])
  {
    if row == [] then Ok(Ignore)
    else
      match MatchMonthHeader(row[0])
      case None => Ok(Ignore)
      case Some(name) =>
        match MonthNumber(name)
        case None => Err(UnknownMonth(name))
        case Some(m) => Ok(NewMonth(m))
  }

  /** A gig row: its day, then the gig its cells describe. */
  function ReadGigRow(row: Row, year: int, month: int): (r: Result<RowEffect, ScanError>)
    requires IsGigRow(row)
    ensures r.Ok? ==> r.value.Emit?
    ensures r.Ok? ==>
              && ValidDate(r.value.gig.date)
              && r.value.gig.date.year == year && r.value.gig.date.month == month
              && MakeUsable(row[1]) == Some(r.value.gig.artist)
              && !(r.value.gig.soldOut && r.value.gig.cancelled)
  {
    match MatchDateDay(Strip(row[0], {'*'}))
    case None => Err(DateCellUnmatched(row[0]))
    case Some(digits) =>
      var day := DigitsValue(digits);
      match MakeDate(year, month, day)
      case None => Err(InvalidDate(year, month, day))
      case Some(date) =>
        match MakeRippedGig(row[1], row[2], date, row[3])
        case Err(e) => Err(GigCellsRejected(e))
        case Ok(g) => Ok(Emit(g))
  }

  /** The month a row of fewer than four cells sets: the month named by
      a header in its first cell, when that name is one of `MONTHS`. */
  function HeaderMonth(row: Row): Option<int>
  {
    if row == [] || |row| >= 4 then None
    else
      match MatchMonthHeader(row[0])
      case None => None
      case Some(name) => MonthNumber(name)
  }

  /** `current_month` when row `i` is read: the month of the last header
      row before it, or January. */
  function CurrentMonth(rows: seq<Row>, i: nat): int
    requires i <= |rows|
  {
    MonthAt(HeaderMonth, rows, i)
  }

  /** Before any header row the month is January. */
  lemma {:induction false} CurrentMonthNoHeader(rows: seq<Row>, i: nat)
    requires i <= |rows| && forall h :: 0 <= h < i ==> HeaderMonth(rows[h]).None?
    ensures CurrentMonth(rows, i) == 1
  {
    if i > 0 {
      CurrentMonthNoHeader(rows, i - 1);
    }
  }

  /** After a header row, and until the next one, the month is the one it
      names. */
  lemma {:induction false} CurrentMonthLastHeader(rows: seq<Row>, h: nat, i: nat)
    requires h < i <= |rows| && HeaderMonth(rows[h]).Some?
    requires forall j :: h < j < i ==> HeaderMonth(rows[j]).None?
    ensures CurrentMonth(rows, i) == HeaderMonth(rows[h]).value
    decreases i
  {
    if i - 1 > h {
      CurrentMonthLastHeader(rows, h, i - 1);
    }
  }

  /** The number of gig rows before row `i`: the index in the scan's
      result of the gig row `i` gives. */
  function GigRowsBefore(rows: seq<Row>, i: nat): nat
    requires i <= |rows|
  {
    if i == 0 then 0
    else GigRowsBefore(rows, i - 1) + (if IsGigRow(rows[i - 1]) then 1 else 0)
  }

  /** A gig read from a row is dated on the day DATE_RE finds in its
      first cell, and its other fields are those the next three cells
      give. */
  lemma ReadRowGig(row: Row, year: int, month: int)
    requires ReadRow(row, year, month).Ok? && ReadRow(row, year, month).value.Emit?
    ensures var g := ReadRow(row, year, month).value.gig;
      && IsGigRow(row) && MatchDateDay(Strip(row[0], {'*'})).Some?
      && g.date == Date(year, month, DigitsValue(MatchDateDay(Strip(row[0], {'*'})).value))
      && MakeRippedGig(row[1], row[2], g.date, row[3]) == Ok(g)
  {
  }

  /** A row read without error is a month header exactly when
      `HeaderMonth` finds a month in it, and then sets that month. */
  lemma ReadRowMonth(row: Row, year: int, month: int)
    requires ReadRow(row, year, month).Ok?
    ensures ReadRow(row, year, month).value.NewMonth? <==> HeaderMonth(row).Some?
    ensures ReadRow(row, year, month).value.NewMonth? ==>
              HeaderMonth(row) == Some(ReadRow(row, year, month).value.month)
  {
  }

  /** Only the first four cells of a row are read. */
  lemma ReadRowUsesFourCells(row: Row, year: int, month: int)
    requires |row| >= 4
    ensures ReadRow(row, year, month) == ReadRow(row[..4], year, month)
  {
    assert row[..4][0] == row[0] && row[..4][1] == row[1];
    assert row[..4][2] == row[2] && row[..4][3] == row[3];
  }

  /** The number of gig rows in `rows[i..]`. */
  function GigRowsFrom(rows: seq<Row>, i: nat): nat
    requires i <= |rows|
    decreases |rows| - i
  {
    if i == |rows| then 0
    else (if IsGigRow(rows[i]) then 1 else 0) + GigRowsFrom(rows, i + 1)
  }

  /** A way of reading one row, given the current month. */
  type RowReader = (Row, int) -> Result<RowEffect, ScanError>

  /** `ReadRow` for the year the sheet covers. */
  function Reader(year: int): RowReader
  {
    (row, month) => ReadRow(row, year, month)
  }

  /** What the scan relies on in a row reader: a row read without error
      yields a gig exactly when it is a gig row, and that gig is dated
      in `year`, on a real calendar day. */
  ghost predicate ReadsGigRows(read: RowReader, year: int)
  {
    forall row, month :: read(row, month).Ok? ==>
      && (read(row, month).value.Emit? <==> IsGigRow(row))
      && (read(row, month).value.Emit? ==>
            ValidDate(read(row, month).value.gig.date) && read(row, month).value.gig.date.year == year)
  }

  lemma ReaderReadsGigRows(year: int)
    ensures ReadsGigRows(Reader(year), year)
  {
    forall row, month | Reader(year)(row, month).Ok?
      ensures Reader(year)(row, month).value.Emit? <==> IsGigRow(row)
    {
      assert Reader(year)(row, month) == ReadRow(row, year, month);
    }
  }

  /** The gigs from index `from` on are dated in `year`, on real days. */
  predicate DatedIn(gigs: seq<RippedGig>, from: nat, year: int)
  {
    forall k :: from <= k < |gigs| ==> ValidDate(gigs[k].date) && gigs[k].date.year == year
  }

  /** The scan from row `i` on, with `month` current and `acc` collected,
      reading each row with `read`. */
  function ScanFrom(read: RowReader, year: int, rows: seq<Row>, i: nat, month: int, acc: seq<RippedGig>)
    : (r: Result<seq<RippedGig>, ScanError>)
    requires ReadsGigRows(read, year) && i <= |rows|
    // one gig per gig row, appended in row order after those collected
    ensures r.Ok? ==> |r.value| == |acc| + GigRowsFrom(rows, i) && r.value[..|acc|] == acc
    // every new gig is dated in `year`, on a real calendar day
    ensures r.Ok? ==> DatedIn(r.value, |acc|, year)
    decreases |rows| - i
  {
    if i == |rows| then Ok(acc)
    else
      match read(rows[i], month)
      case Err(e) => Err(e)
      case Ok(Ignore) => ScanFrom(read, year, rows, i + 1, month, acc)
      case Ok(NewMonth(m)) => ScanFrom(read, year, rows, i + 1, m, acc)
      case Ok(Emit(g)) =>
        var r := ScanFrom(read, year, rows, i + 1, month, acc + [g]);
        if r.Ok? then
          assert r.value[..|acc| + 1] == acc + [g];
          assert r.value[|acc|] == g;
          assert r.value[..|acc|] == acc;
          r
        else r
  }

  /** One step of the scan, whatever the row reader. */
  lemma ScanFromStep(read: RowReader, year: int, rows: seq<Row>, i: nat, month: int,
                     acc: seq<RippedGig>, effect: Result<RowEffect, ScanError>)
    requires ReadsGigRows(read, year) && i < |rows| && read(rows[i], month) == effect
    ensures ScanFrom(read, year, rows, i, month, acc) ==
              match effect
              case Err(e) => Err(e)
              case Ok(Ignore) => ScanFrom(read, year, rows, i + 1, month, acc)
              case Ok(NewMonth(m)) => ScanFrom(read, year, rows, i + 1, m, acc)
              case Ok(Emit(g)) => ScanFrom(read, year, rows, i + 1, month, acc + [g])
  {
  }

  /** The whole scan: `current_month` starts at January. */
  function Scan(rows: seq<Row>, year: int): (r: Result<seq<RippedGig>, ScanError>)
    ensures r.Ok? ==> |r.value| == GigRowsFrom(rows, 0)
    ensures r.Ok? ==> DatedIn(r.value, 0, year)
  {
    ReaderReadsGigRows(year);
    ScanFrom(Reader(year), year, rows, 0, 1, [])
  }

  /** A way of telling a header row and the month it names. */
  type Header = Row -> Option<int>

  /** The current month when row `i` is read, with header rows told by
      `header`. */
  function MonthAt(header: Header, rows: seq<Row>, i: nat): int
    requires i <= |rows|
  {
    if i == 0 then 1
    else if header(rows[i - 1]).Some? then header(rows[i - 1]).value
    else MonthAt(header, rows, i - 1)
  }

  /** A row reader whose month headers are the rows `header` tells. */
  ghost predicate ReadsHeaders(read: RowReader, header: Header)
  {
    forall row, month :: read(row, month).Ok? ==>
      && (read(row, month).value.NewMonth? <==> header(row).Some?)
      && (read(row, month).value.NewMonth? ==> header(row) == Some(read(row, month).value.month))
  }

  lemma ReaderReadsHeaders(year: int)
    ensures ReadsHeaders(Reader(year), HeaderMonth)
  {
    forall row, month | Reader(year)(row, month).Ok?
      ensures Reader(year)(row, month).value.NewMonth? <==> HeaderMonth(row).Some?
      ensures Reader(year)(row, month).value.NewMonth? ==>
                HeaderMonth(row) == Some(Reader(year)(row, month).value.month)
    {
      ReadRowMonth(row, year, month);
    }
  }

  /** The month carry: a scan without error gives, for each gig row in
      turn, the gig that row gives when read in the month of the last
      header row above it (January when there is none). */
  lemma ScanMonthCarry(rows: seq<Row>, year: int)
    requires Scan(rows, year).Ok?
    ensures forall j :: 0 <= j < |rows| && IsGigRow(rows[j]) ==>
              && GigRowsBefore(rows, j) < |Scan(rows, year).value|
              && ReadRow(rows[j], year, CurrentMonth(rows, j)) == Ok(Emit(Scan(rows, year).value[GigRowsBefore(rows, j)]))
  {
    ReaderReadsGigRows(year);
    ReaderReadsHeaders(year);
    var r := Scan(rows, year).value;
    forall j | 0 <= j < |rows| && IsGigRow(rows[j])
      ensures GigRowsBefore(rows, j) < |r|
      ensures ReadRow(rows[j], year, CurrentMonth(rows, j)) == Ok(Emit(r[GigRowsBefore(rows, j)]))
    {
      CarriesTo(Reader(year), HeaderMonth, year, rows, r, j);
      assert ReadRow(rows[j], year, CurrentMonth(rows, j)) == Reader(year)(rows[j], CurrentMonth(rows, j));
    }
  }

  /** The month carry up to the gig row `j`, walking the scan one row at
      a time: `acc` holds the gigs of the gig rows above row `i` and `r`
      the gigs of the whole scan. */
  lemma CarriesTo(read: RowReader, header: Header, year: int, rows: seq<Row>, r: seq<RippedGig>, j: nat)
    requires ReadsGigRows(read, year) && ReadsHeaders(read, header)
    requires j < |rows| && IsGigRow(rows[j])
    requires ScanFrom(read, year, rows, 0, MonthAt(header, rows, 0), []) == Ok(r)
    ensures GigRowsBefore(rows, j) < |r|
    ensures read(rows[j], MonthAt(header, rows, j)) == Ok(Emit(r[GigRowsBefore(rows, j)]))
  {
    var i, acc := 0, [];
    while i < j
      invariant i <= j && |acc| == GigRowsBefore(rows, i)
      invariant ScanFrom(read, year, rows, i, MonthAt(header, rows, i), acc) == Ok(r)
    {
      acc := CarryOn(read, header, year, rows, i, acc, r);
      i := i + 1;
    }
    CarryHere(read, header, year, rows, j, acc, r);
  }

  /** The scan from row `i` reaches the same gigs from row `i + 1`. */
  lemma CarryOn(read: RowReader, header: Header, year: int, rows: seq<Row>, i: nat, acc: seq<RippedGig>, r: seq<RippedGig>)
    returns (next: seq<RippedGig>)
    requires ReadsGigRows(read, year) && ReadsHeaders(read, header)
    requires i < |rows| && |acc| == GigRowsBefore(rows, i)
    requires ScanFrom(read, year, rows, i, MonthAt(header, rows, i), acc) == Ok(r)
    ensures |next| == GigRowsBefore(rows, i + 1)
    ensures ScanFrom(read, year, rows, i + 1, MonthAt(header, rows, i + 1), next) == Ok(r)
  {
    next := CarryStep(read, header, year, rows, i, acc);
  }

  /** The gig row `i` gives the gig the scan collects from it. */
  lemma CarryHere(read: RowReader, header: Header, year: int, rows: seq<Row>, i: nat, acc: seq<RippedGig>, r: seq<RippedGig>)
    requires ReadsGigRows(read, year) && ReadsHeaders(read, header)
    requires i < |rows| && |acc| == GigRowsBefore(rows, i) && IsGigRow(rows[i])
    requires ScanFrom(read, year, rows, i, MonthAt(header, rows, i), acc) == Ok(r)
    ensures |acc| < |r| && read(rows[i], MonthAt(header, rows, i)) == Ok(Emit(r[|acc|]))
  {
    var next := CarryStep(read, header, year, rows, i, acc);
    assert ScanFrom(read, year, rows, i + 1, MonthAt(header, rows, i + 1), next) == Ok(r);
    assert r[..|next|] == next;
    assert r[|acc|] == next[|acc|];
  }

  /** One row of the month carry: reading row `i` in its current month
      leaves the scan at row `i + 1` in that row's current month, with the
      gig of a gig row collected. */
  lemma CarryStep(read: RowReader, header: Header, year: int, rows: seq<Row>, i: nat, acc: seq<RippedGig>)
    returns (next: seq<RippedGig>)
    requires ReadsGigRows(read, year) && ReadsHeaders(read, header)
    requires i < |rows| && |acc| == GigRowsBefore(rows, i)
    requires ScanFrom(read, year, rows, i, MonthAt(header, rows, i), acc).Ok?
    ensures |next| == GigRowsBefore(rows, i + 1) && next[..|acc|] == acc
    ensures ScanFrom(read, year, rows, i, MonthAt(header, rows, i), acc)
              == ScanFrom(read, year, rows, i + 1, MonthAt(header, rows, i + 1), next)
    ensures IsGigRow(rows[i]) ==> read(rows[i], MonthAt(header, rows, i)) == Ok(Emit(next[|acc|]))
  {
    var month := MonthAt(header, rows, i);
    var effect := read(rows[i], month);
    ScanFromStep(read, year, rows, i, month, acc, effect);
    match effect {
      case Ok(Ignore) =>
        next := acc;
      case Ok(NewMonth(m)) =>
        next := acc;
      case Ok(Emit(g)) =>
        next := acc + [g];
    }
  }

  /** A sheet of short rows alone yields no gigs. */
  lemma {:induction false} ShortRowsYieldNothing(rows: seq<Row>, i: nat, year: int, month: int)
    requires i <= |rows|
    requires forall k :: i <= k < |rows| ==> |rows[k]| < 4
    ensures (ReaderReadsGigRows(year);
             ScanFrom(Reader(year), year, rows, i, month, []).Ok? ==>
               ScanFrom(Reader(year), year, rows, i, month, []).value == [])
    decreases |rows| - i
  {
    ReaderReadsGigRows(year);
    if i < |rows| {
      match ReadRow(rows[i], year, month)
      case Err(_) =>
      case Ok(Ignore) => ShortRowsYieldNothing(rows, i + 1, year, month);
      case Ok(NewMonth(m)) => ShortRowsYieldNothing(rows, i + 1, year, m);
      case Ok(Emit(_)) =>
    }
  }

  /** The row loop of `handle_noargs`: `current_month` and the list of
      gigs are updated row by row; the first exception ends the scan. */
  method ScanRows(rows: seq<Row>, year: int) returns (r: Result<seq<RippedGig>, ScanError>)
    ensures r == Scan(rows, year)
  {
    ReaderReadsGigRows(year);
    var month := 1;
    var gigs: seq<RippedGig> := [];
    var i := 0;
    while i < |rows|
      invariant 0 <= i <= |rows|
      invariant ScanFrom(Reader(year), year, rows, i, month, gigs) == Scan(rows, year)
    {
      var effect := ReadRow(rows[i], year, month);
      ScanFromStep(Reader(year), year, rows, i, month, gigs, effect);
      match effect {
        case Err(e) => return Err(e);
        case Ok(Ignore) =>
        case Ok(NewMonth(m)) => month := m;
        case Ok(Emit(g)) => gigs := gigs + [g];
      }
      assert ScanFrom(Reader(year), year, rows, i + 1, month, gigs) == Scan(rows, year);
      i := i + 1;
    }
    return Ok(gigs);
  }

  // ---------------------------------------------------------------------
  // Reconciliation: scraped labels to canonical records

  /** Python truthiness of an optional text: present and non-empty. */
  predicate Present(o: Option<string>)
  {
    o.Some? && o.value != ""
  }

  /** `slugify(name)[:50]`, the slug a record created from a label gets. */
  function SlugFor(slugify: string -> string, name: string): (slug: string)
    ensures |slug| <= 50 && slug <= slugify(name)
  {
    Take(slugify(name), 50)
  }

  /** Some record of kind `kind` is linked to the alias (name, kind). */
  ghost predicate HasLinkedIn(ids: map<Id, ImportIdentifier>, links: set<Link>, kind: Kind, name: string)
  {
    exists e :: LinkedIn(ids, links, kind, name, e)
  }

  ghost predicate HasLinked(db: Database, kind: Kind, name: string)
    reads db
  {
    HasLinkedIn(db.identifiers, db.links, kind, name)
  }

  /** An artist already has this name or this slug. */
  ghost predicate ArtistTaken(db: Database, name: string, slug: string)
    reads db
  {
    exists a :: a in db.artists && (db.artists[a].name == name || db.artists[a].slug == slug)
  }

  /** `ImportIdentifier.objects.get_or_create(...)` followed by the lookup
      of the entity linked to it: the alias `gi` of (tag, kind), and the
      entity it is linked to if any. Only a new alias changes the tables. */
  method FindAlias(db: Database, tag: string, kind: Kind) returns (gi: Id, found: Option<Id>)
    requires db.Valid()
    modifies db`identifiers, db`nextId
    ensures db.Valid()
    ensures Extends(old(db.identifiers), db.links, db.identifiers, db.links)
    ensures gi in db.identifiers && db.identifiers[gi] == ImportIdentifier(tag, kind)
    ensures found.Some? <==> old(HasLinked(db, kind, tag))
    ensures found.Some? ==> && Link(kind, found.value, gi) in db.links
                            && found.value in db.EntityKeys(kind)
                            && old(db.Linked(kind, tag, found.value))
                            && db.Linked(kind, tag, found.value)
                            && (forall x :: old(db.Linked(kind, tag, x)) ==> x == found.value)
                            && db.Contents() == old(db.Contents())
    ensures found.None? ==> forall x :: Link(kind, x, gi) !in db.links
  {
    ghost var linked := HasLinked(db, kind, tag);
    ghost var e0: Id := 0;
    if linked {
      e0 :| LinkedIn(db.identifiers, db.links, kind, tag, e0);
    }
    gi := db.GetOrCreateIdentifier(tag, kind);
    if linked {
      db.LinkedAt(kind, tag, gi, e0);
    }
    found := db.LinkedEntity(kind, gi);
    if found.Some? {
      assert db.Linked(kind, tag, found.value);
      LinkedBefore(old(db.identifiers), db.identifiers, db.links, gi, kind, tag, found.value);
      if linked {
        assert Link(kind, e0, gi).ident == Link(kind, found.value, gi).ident;
        forall x | old(db.Linked(kind, tag, x)) ensures x == found.value {
          db.LinkedUnique(kind, tag, x, found.value);
        }
      }
    }
  }

  /** A link in a table that was not touched names an alias that existed
      before, so the label was already linked. */
  lemma LinkedBefore(ids0: map<Id, ImportIdentifier>, ids1: map<Id, ImportIdentifier>, links: set<Link>,
                     i: Id, kind: Kind, tag: string, e: Id)
    requires Extends(ids0, links, ids1, links) && LinksTyped(links, ids0)
    requires i in ids1 && ids1[i] == ImportIdentifier(tag, kind) && Link(kind, e, i) in links
    ensures LinkedIn(ids0, links, kind, tag, e)
  {
    assert i in ids0 && ids0[i] == ImportIdentifier(tag, kind);
  }

  /** Only entity links were added: the gig join table is as it was. */
  ghost predicate NoNewGigLinks(links0: set<Link>, links1: set<Link>)
  {
    forall l :: l in links1 && l.kind == GigKind ==> l in links0
  }

  lemma EntityLinkAdded(links: set<Link>, added: Link)
    requires added.kind != GigKind
    ensures NoNewGigLinks(links, links + {added})
  {
  }

  /** Find or create the artist for a scraped label: the artist linked
      to the alias (name, artist), or a new artist called `name` that
      the alias is then linked to. */
  method ReconcileArtist(db: Database, name: string, slugify: string -> string, today: Date)
    returns (r: Result<Id, IntegrityError>)
    requires db.Valid()
    modifies db`identifiers, db`nextId, db`artists, db`links, db`gigs
    ensures db.Valid()
    ensures Extends(old(db.identifiers), old(db.links), db.identifiers, db.links)
    ensures NoNewGigLinks(old(db.links), db.links)
    ensures db.gigs == old(db.gigs)
    ensures r.Ok? ==> r.value in db.artists && db.Linked(ArtistKind, name, r.value)
    // a linked label resolves to its artist and changes nothing
    ensures forall a: Id :: old(db.Linked(ArtistKind, name, a)) ==>
              r == Ok(a) && db.Contents() == old(db.Contents())
    // otherwise a new artist is created, unless its name or slug is taken
    ensures !old(HasLinked(db, ArtistKind, name)) ==>
              (r.Err? <==> old(ArtistTaken(db, name, SlugFor(slugify, name))))
    ensures !old(HasLinked(db, ArtistKind, name)) && r.Ok? ==>
              && r.value !in old(db.artists)
              && db.artists == old(db.artists)[r.value := Artist(name, SlugFor(slugify, name), true, 0)]
    ensures r.Err? ==> db.artists == old(db.artists) && db.links == old(db.links)
  {
    var i, found := FindAlias(db, name, ArtistKind);
    if found.Some? {
      r := Ok(found.value);
    } else {
      r := CreateLinkedArtist(db, i, name, SlugFor(slugify, name), today);
      if r.Ok? {
        assert db.Linked(ArtistKind, name, r.value);
      }
    }
  }

  /** A new artist for the unlinked alias `i`: created, the alias linked
      to it, then saved (which fires the slug signal, with no gigs yet). */
  method CreateLinkedArtist(db: Database, i: Id, name: string, slug: string, today: Date)
    returns (r: Result<Id, IntegrityError>)
    requires db.Valid() && i in db.identifiers && db.identifiers[i].kind == ArtistKind
    requires forall x :: Link(ArtistKind, x, i) !in db.links
    modifies db`nextId, db`artists, db`links, db`gigs
    ensures db.Valid()
    ensures db.gigs == old(db.gigs)
    ensures r.Err? <==> old(ArtistTaken(db, name, slug))
    ensures r.Ok? ==> && r.value !in old(db.artists)
                      && db.artists == old(db.artists)[r.value := Artist(name, slug, true, 0)]
                      && db.links == old(db.links) + {Link(ArtistKind, r.value, i)}
    ensures r.Err? ==> db.artists == old(db.artists) && db.links == old(db.links)
  {
    r := db.CreateArtist(name, slug);
    if r.Ok? {
      db.AddLink(ArtistKind, r.value, i);
      NoGigsNoSync(db.gigs, r.value, slug, today);
      db.SaveArtist(r.value, false, today);
    }
  }

  /** A town already has this name or this slug. */
  ghost predicate TownTaken(db: Database, name: string, slug: string)
    reads db
  {
    exists x :: x in db.towns && (db.towns[x].name == name || db.towns[x].slug == slug)
  }

  /** Find or create the town for a scraped label: the town linked to
      the alias (name, town), or a new town called `name` that
      the alias is then linked to. */
  method ReconcileTown(db: Database, name: string, slugify: string -> string, today: Date)
    returns (r: Result<Id, IntegrityError>)
    requires db.Valid()
    modifies db`identifiers, db`nextId, db`towns, db`links
    ensures db.Valid()
    ensures Extends(old(db.identifiers), old(db.links), db.identifiers, db.links)
    ensures NoNewGigLinks(old(db.links), db.links)
    ensures r.Ok? ==> r.value in db.towns && db.Linked(TownKind, name, r.value)
    // a linked label resolves to its town and changes nothing
    ensures forall x: Id :: old(db.Linked(TownKind, name, x)) ==>
              r == Ok(x) && db.Contents() == old(db.Contents())
    // otherwise a new town is created, unless its name or slug is taken
    ensures !old(HasLinked(db, TownKind, name)) ==>
              (r.Err? <==> old(TownTaken(db, name, SlugFor(slugify, name))))
    ensures !old(HasLinked(db, TownKind, name)) && r.Ok? ==>
              && r.value !in old(db.towns)
              && db.towns == old(db.towns)[r.value := Town(name, SlugFor(slugify, name), true, 0)]
    ensures r.Err? ==> db.towns == old(db.towns) && db.links == old(db.links)
  {
    var i, found := FindAlias(db, name, TownKind);
    if found.Some? {
      r := Ok(found.value);
    } else {
      var created := db.CreateTown(name, SlugFor(slugify, name));
      r := created;
      if created.Ok? {
        EntityLinkAdded(db.links, Link(TownKind, created.value, i));
        db.AddLink(TownKind, created.value, i);
        db.SaveTown(created.value, false, today);
        assert db.Linked(TownKind, name, created.value);
      }
    }
  }

  /** A venue already has this slug. */
  ghost predicate VenueTaken(db: Database, slug: string)
    reads db
  {
    exists x :: x in db.venues && (db.venues[x].slug == slug)
  }

  /** Find or create the venue for a scraped label: the venue linked to
      the alias (name, venue), or a new venue called `name` in `town` that
      the alias is then linked to. */
  method ReconcileVenue(db: Database, name: string, town: Id, slugify: string -> string, today: Date)
    returns (r: Result<Id, IntegrityError>)
    requires db.Valid() && town in db.towns
    modifies db`identifiers, db`nextId, db`venues, db`links
    ensures db.Valid()
    ensures Extends(old(db.identifiers), old(db.links), db.identifiers, db.links)
    ensures NoNewGigLinks(old(db.links), db.links)
    ensures r.Ok? ==> r.value in db.venues && db.Linked(VenueKind, name, r.value)
    // a linked label resolves to its venue and changes nothing (it keeps its town)
    ensures forall x: Id :: old(db.Linked(VenueKind, name, x)) ==>
              r == Ok(x) && db.Contents() == old(db.Contents())
    // otherwise a new venue is created, unless its slug is taken
    ensures !old(HasLinked(db, VenueKind, name)) ==>
              (r.Err? <==> old(VenueTaken(db, SlugFor(slugify, name))))
    ensures !old(HasLinked(db, VenueKind, name)) && r.Ok? ==>
              && r.value !in old(db.venues)
              && db.venues == old(db.venues)[r.value := Venue(name, SlugFor(slugify, name), town, true, 0)]
    ensures r.Err? ==> db.venues == old(db.venues) && db.links == old(db.links)
  {
    var i, found := FindAlias(db, name, VenueKind);
    if found.Some? {
      r := Ok(found.value);
    } else {
      var created := db.CreateVenue(name, SlugFor(slugify, name), town);
      r := created;
      if created.Ok? {
        EntityLinkAdded(db.links, Link(VenueKind, created.value, i));
        db.AddLink(VenueKind, created.value, i);
        db.SaveVenue(created.value, false, today);
        assert db.Linked(VenueKind, name, created.value);
      }
    }
  }

  /** A promoter already has this name or this slug. */
  ghost predicate PromoterTaken(db: Database, name: string, slug: string)
    reads db
  {
    exists x :: x in db.promoters && (db.promoters[x].name == name || db.promoters[x].slug == slug)
  }

  /** Find or create the promoter for a scraped label: the promoter linked to
      the alias (name, promoter), or a new promoter called `name` that
      the alias is then linked to. */
  method ReconcilePromoter(db: Database, name: string, slugify: string -> string, today: Date)
    returns (r: Result<Id, IntegrityError>)
    requires db.Valid()
    modifies db`identifiers, db`nextId, db`promoters, db`links
    ensures db.Valid()
    ensures Extends(old(db.identifiers), old(db.links), db.identifiers, db.links)
    ensures NoNewGigLinks(old(db.links), db.links)
    ensures r.Ok? ==> r.value in db.promoters && db.Linked(PromoterKind, name, r.value)
    // a linked label resolves to its promoter and changes nothing
    ensures forall x: Id :: old(db.Linked(PromoterKind, name, x)) ==>
              r == Ok(x) && db.Contents() == old(db.Contents())
    // otherwise a new promoter is created, unless its name or slug is taken
    ensures !old(HasLinked(db, PromoterKind, name)) ==>
              (r.Err? <==> old(PromoterTaken(db, name, SlugFor(slugify, name))))
    ensures !old(HasLinked(db, PromoterKind, name)) && r.Ok? ==>
              && r.value !in old(db.promoters)
              && db.promoters == old(db.promoters)[r.value := Promoter(name, SlugFor(slugify, name), true, 0)]
    ensures r.Err? ==> db.promoters == old(db.promoters) && db.links == old(db.links)
  {
    var i, found := FindAlias(db, name, PromoterKind);
    if found.Some? {
      r := Ok(found.value);
    } else {
      var created := db.CreatePromoter(name, SlugFor(slugify, name));
      r := created;
      if created.Ok? {
        EntityLinkAdded(db.links, Link(PromoterKind, created.value, i));
        db.AddLink(PromoterKind, created.value, i);
        db.SavePromoter(created.value, false, today);
        assert db.Linked(PromoterKind, name, created.value);
      }
    }
  }

  /** The town a row without one is filed under. */
  const DefaultTown: string := "Edinburgh"

  /** The town named `DefaultTown` exists. */
  ghost predicate HasDefaultTown(db: Database)
    reads db
  {
    exists t :: t in db.towns && db.towns[t].name == DefaultTown
  }

  /** The town table only grew, and no town was renamed. */
  ghost predicate TownsGrow(towns0: map<Id, Town>, towns1: map<Id, Town>)
  {
    forall t :: t in towns0 ==> t in towns1 && towns1[t].name == towns0[t].name
  }

  /** The gig's town: the town its label names or, when the row gives
      none, the town called Edinburgh (`get_or_create` by name). */
  method ResolveTown(db: Database, town: Option<string>, slugify: string -> string, today: Date)
    returns (r: Result<Id, IntegrityError>)
    requires db.Valid()
    modifies db`identifiers, db`nextId, db`towns, db`links
    ensures db.Valid()
    ensures Extends(old(db.identifiers), old(db.links), db.identifiers, db.links)
    ensures NoNewGigLinks(old(db.links), db.links)
    ensures TownsGrow(old(db.towns), db.towns)
    ensures r.Ok? ==> r.value in db.towns
    ensures Present(town) && r.Ok? ==> db.Linked(TownKind, town.value, r.value)
    ensures !Present(town) && r.Ok? ==> db.towns[r.value].name == DefaultTown
    ensures !Present(town) ==> db.identifiers == old(db.identifiers) && db.links == old(db.links)
    // nothing changes when the label is linked, or the default town exists
    ensures (if Present(town) then old(HasLinked(db, TownKind, town.value)) else old(HasDefaultTown(db))) ==>
              r.Ok? && db.Contents() == old(db.Contents())
  {
    if Present(town) {
      if HasLinked(db, TownKind, town.value) {
        ghost var x :| LinkedIn(db.identifiers, db.links, TownKind, town.value, x);
        assert db.Linked(TownKind, town.value, x);
      }
      r := ReconcileTown(db, town.value, slugify, today);
    } else {
      r := db.GetOrCreateTownNamed(DefaultTown);
    }
  }

  // ---------------------------------------------------------------------
  // The gig upsert

  /** The reasons an import stops. */
  datatype ImportError =
    | Unreadable(scan: ScanError)
    | Integrity(integrity: IntegrityError)
    | MultipleGigs(artist: Id, date: Date)   // MultipleObjectsReturned from `.get`

  /** The alias a gig is recorded under: "<artist> at <venue> on <date>". */
  function GigAlias(g: RippedGig): (tag: string)
    requires ValidDate(g.date)
    ensures |tag| >= |g.artist| + 10 && tag[..|g.artist|] == g.artist
    ensures tag[|tag| - 10..] == IsoFormat(g.date)
  {
    g.artist + " at " + g.venue + " on " + IsoFormat(g.date)
  }

  /** Rows of different dates are never recorded under the same alias. */
  lemma GigAliasDate(a: RippedGig, b: RippedGig)
    requires ValidDate(a.date) && ValidDate(b.date) && GigAlias(a) == GigAlias(b)
    ensures a.date == b.date
  {
    IsoRoundTrip(a.date);
    IsoRoundTrip(b.date);
  }

  /** Gigs by artist `a` on `date` at a venue other than `v`. */
  function MoveCandidates(gigs: map<Id, Gig>, a: Id, v: Id, date: Date): set<Id>
  {
    set x | x in gigs && gigs[x].artist == a && gigs[x].date == date && gigs[x].venue != v
  }

  /** Some gig already fills the slot of `g`. */
  ghost predicate SlotTaken(gigs: map<Id, Gig>, g: Gig, except: Option<Id>)
  {
    exists x :: x in gigs && Some(x) != except && SameSlot(gigs[x], g)
  }

  /** The note recorded when a gig moves venue. */
  function ChangeNote(from: string, to: string): string
  {
    "Venue changed from " + from + " to " + to + "."
  }

  /** The extra information of a moved gig: the row's information, if
      any, then the note; what the gig said before is dropped. */
  function MovedInformation(info: Option<string>, from: string, to: string): (s: string)
    ensures EndsWith(s, ChangeNote(from, to))
    ensures Present(info) ==> |s| == |info.value| + 2 + |ChangeNote(from, to)|
                              && s[..|info.value|] == info.value
    ensures !Present(info) ==> s == ChangeNote(from, to)
  {
    var note := ChangeNote(from, to);
    if Present(info) then
      var s := info.value + ". " + note;
      assert s[|s| - |note|..] == note;
      s
    else note
  }

  /** The gig a row creates. */
  function NewGig(rg: RippedGig, a: Id, slug: string, v: Id, p: Option<Id>): Gig
  {
    Gig(a, slug, v, p, rg.date, rg.price, rg.soldOut, rg.cancelled, rg.info, true)
  }

  /** The gig `g` after the row moved it to venue `v`. */
  function MovedGig(g: Gig, rg: RippedGig, v: Id, p: Option<Id>, info: string): Gig
  {
    g.(venue := v, promoter := p, price := rg.price, soldOut := rg.soldOut,
       cancelled := rg.cancelled, extraInformation := Some(info))
  }

  /** An existing gig's `sold_out` and `cancelled` are brought in line
      with the row, each saved only if it differs. */
  method RefreshFlags(db: Database, e: Id, soldOut: bool, cancelled: bool)
    requires db.Valid() && e in db.gigs
    modifies db`gigs
    ensures db.Valid()
    ensures db.Contents() == old(db.Contents()).(gigs := old(db.gigs)[e := old(db.gigs[e]).(soldOut := soldOut, cancelled := cancelled)])
  {
    ghost var start := db.gigs;
    var g := db.gigs[e];
    RewriteSame(start, e);
    if g.soldOut != soldOut {
      g := g.(soldOut := soldOut);
      SaveInSlot(db, e, g);
    }
    ghost var middle := g;
    if g.cancelled != cancelled {
      g := g.(cancelled := cancelled);
      SaveInSlot(db, e, g);
      RewriteTwice(start, e, middle, g);
    }
    assert g == start[e].(soldOut := soldOut, cancelled := cancelled);
  }

  lemma RewriteSame(m: map<Id, Gig>, e: Id)
    requires e in m
    ensures m[e := m[e]] == m
  {
  }

  lemma RewriteTwice(m: map<Id, Gig>, e: Id, g1: Gig, g2: Gig)
    ensures m[e := g1][e := g2] == m[e := g2]
  {
  }

  /** `gig.save()` after a change that keeps the gig's slot and foreign
      keys, which no constraint can refuse. */
  method SaveInSlot(db: Database, e: Id, g: Gig)
    requires db.Valid() && e in db.gigs && SameSlot(db.gigs[e], g)
    requires g.promoter == db.gigs[e].promoter
    modifies db`gigs
    ensures db.Valid()
    ensures db.gigs == old(db.gigs)[e := g]
  {
    assert forall x :: x in db.gigs && x != e ==> !SameSlot(db.gigs[x], g) by {
      forall x | x in db.gigs && x != e ensures !SameSlot(db.gigs[x], g) {
        assert !SameSlot(db.gigs[x], db.gigs[e]);
      }
    }
    var saved := db.SaveGig(e, g);
  }

  /** No gig matched: a new gig with the artist's slug is created and
      recorded under the alias. */
  method AddNewGig(db: Database, gi: Id, rg: RippedGig, a: Id, v: Id, p: Option<Id>)
    returns (r: Result<Id, ImportError>)
    requires db.Valid() && gi in db.identifiers && db.identifiers[gi].kind == GigKind
    requires forall x :: Link(GigKind, x, gi) !in db.links
    requires a in db.artists && v in db.venues && (p.Some? ==> p.value in db.promoters)
    modifies db`nextId, db`links, db`gigs
    ensures db.Valid()
    ensures r.Err? ==> r.error.Integrity?
    ensures old(db.links) <= db.links
    ensures var g := NewGig(rg, a, db.artists[a].slug, v, p);
      && (r.Err? <==> old(SlotTaken(db.gigs, g, None)))
      && (r.Ok? ==> && r.value !in old(db.gigs) && db.gigs == old(db.gigs)[r.value := g]
                    && Link(GigKind, r.value, gi) in db.links)
      && (r.Err? ==> db.gigs == old(db.gigs) && db.links == old(db.links))
  {
    var g := NewGig(rg, a, db.artists[a].slug, v, p);
    var created := db.CreateGig(g);
    if created.Err? {
      return Err(Integrity(created.error));
    }
    db.AddLink(GigKind, created.value, gi);
    SaveInSlot(db, created.value, g);
    RewriteTwice(old(db.gigs), created.value, g, g);
    r := Ok(created.value);
  }

  /** One gig matched: it takes the row's venue, promoter, price and
      flags, its extra information becomes the venue-change note, and it
      is recorded under the alias (before it is saved). */
  method MoveGig(db: Database, gi: Id, c: Id, rg: RippedGig, v: Id, p: Option<Id>)
    returns (r: Result<Id, ImportError>)
    requires db.Valid() && gi in db.identifiers && db.identifiers[gi].kind == GigKind
    requires forall x :: Link(GigKind, x, gi) !in db.links
    requires c in db.gigs && v in db.venues && (p.Some? ==> p.value in db.promoters)
    modifies db`links, db`gigs
    ensures db.Valid()
    ensures r.Err? ==> r.error.Integrity?
    ensures db.links == old(db.links) + {Link(GigKind, c, gi)}
    ensures var g := MovedGig(old(db.gigs[c]), rg, v, p,
                      MovedInformation(rg.info, db.venues[old(db.gigs[c]).venue].name, db.venues[v].name));
      && (r.Err? <==> old(SlotTaken(db.gigs, g, Some(c))))
      && (r.Ok? ==> r == Ok(c) && db.gigs == old(db.gigs)[c := g])
      && (r.Err? ==> db.gigs == old(db.gigs))
  {
    var old_gig := db.gigs[c];
    var info := MovedInformation(rg.info, db.venues[old_gig.venue].name, db.venues[v].name);
    var g := MovedGig(old_gig, rg, v, p, info);
    db.AddLink(GigKind, c, gi);
    var saved := db.SaveGig(c, g);
    if saved.Err? {
      r := Err(Integrity(saved.error));
    } else {
      r := Ok(c);
    }
  }

  /** What the upsert does to the gig table `g0`, giving `g1`, when the
      alias is not linked yet: more than one gig that could have moved
      stops the import; none gives a new gig with the artist's slug,
      unless its slot is taken; exactly one moves that gig to venue `v`,
      unless its new slot is taken. */
  ghost predicate UnlinkedUpsert(g0: map<Id, Gig>, g1: map<Id, Gig>, venues: map<Id, Venue>,
                                 slug: string, rg: RippedGig, a: Id, v: Id, p: Option<Id>,
                                 r: Result<Id, ImportError>)
    requires v in venues && forall x :: x in g0 ==> g0[x].venue in venues
  {
    var candidates := MoveCandidates(g0, a, v, rg.date);
    && (|candidates| > 1 ==> r == Err(MultipleGigs(a, rg.date)) && g1 == g0)
    && (candidates == {} ==>
          var g := NewGig(rg, a, slug, v, p);
          && (r.Err? <==> SlotTaken(g0, g, None))
          && (r.Ok? ==> r.value !in g0 && g1 == g0[r.value := g])
          && (r.Err? ==> g1 == g0))
    && (forall c :: c in candidates && |candidates| == 1 ==>
          var g := MovedGig(g0[c], rg, v, p,
                     MovedInformation(rg.info, venues[g0[c].venue].name, venues[v].name));
          && (r.Err? <==> SlotTaken(g0, g, Some(c)))
          && (r.Ok? ==> r == Ok(c) && g1 == g0[c := g])
          && (r.Err? ==> g1 == g0))
  }

  /** A set of one element is that element's singleton. */
  lemma Singleton(s: set<Id>, c: Id)
    requires c in s && |s| == 1
    ensures s == {c}
  {
    var rest := s - {c};
    assert s == rest + {c} && c !in rest;
    assert |rest| == 0;
    assert rest == {};
  }

  /** The upsert for an alias `gi` that is not linked yet. */
  method UpsertUnlinked(db: Database, gi: Id, rg: RippedGig, a: Id, v: Id, p: Option<Id>)
    returns (r: Result<Id, ImportError>)
    requires db.Valid() && gi in db.identifiers && db.identifiers[gi].kind == GigKind
    requires forall x :: Link(GigKind, x, gi) !in db.links
    requires a in db.artists && v in db.venues && (p.Some? ==> p.value in db.promoters)
    modifies db`nextId, db`links, db`gigs
    ensures db.Valid()
    ensures old(db.links) <= db.links
    ensures r.Ok? ==> && r.value in db.gigs && Link(GigKind, r.value, gi) in db.links
                      && db.gigs[r.value].soldOut == rg.soldOut
                      && db.gigs[r.value].cancelled == rg.cancelled
    ensures r == Err(MultipleGigs(a, rg.date)) ==> db.links == old(db.links)
    ensures UnlinkedUpsert(old(db.gigs), db.gigs, db.venues, db.artists[a].slug, rg, a, v, p, r)
    ensures r.Ok? ==> GigMatches(db.gigs[r.value], rg, Entities(a, v, p))
  {
    ghost var g0 := db.gigs;
    var candidates := MoveCandidates(db.gigs, a, v, rg.date);
    if candidates == {} {
      r := AddNewGig(db, gi, rg, a, v, p);
      NoCandidate(g0, db.gigs, db.venues, db.artists[a].slug, rg, a, v, p, r);
    } else if |candidates| > 1 {
      r := Err(MultipleGigs(a, rg.date));
      ManyCandidates(g0, db.venues, db.artists[a].slug, rg, a, v, p);
    } else {
      var c :| c in candidates;
      Singleton(candidates, c);
      r := MoveGig(db, gi, c, rg, v, p);
      OneCandidate(g0, db.gigs, db.venues, db.artists[a].slug, rg, a, v, p, r, c);
    }
    if r.Ok? {
      UnlinkedMatches(g0, db.gigs, db.venues, db.artists[a].slug, rg, a, v, p, r);
    }
  }

  lemma NoCandidate(g0: map<Id, Gig>, g1: map<Id, Gig>, venues: map<Id, Venue>, slug: string,
                    rg: RippedGig, a: Id, v: Id, p: Option<Id>, r: Result<Id, ImportError>)
    requires v in venues && forall x :: x in g0 ==> g0[x].venue in venues
    requires MoveCandidates(g0, a, v, rg.date) == {}
    requires var g := NewGig(rg, a, slug, v, p);
      && (r.Err? <==> SlotTaken(g0, g, None))
      && (r.Ok? ==> r.value !in g0 && g1 == g0[r.value := g])
      && (r.Err? ==> g1 == g0)
    ensures UnlinkedUpsert(g0, g1, venues, slug, rg, a, v, p, r)
  {
  }

  lemma ManyCandidates(g0: map<Id, Gig>, venues: map<Id, Venue>, slug: string,
                       rg: RippedGig, a: Id, v: Id, p: Option<Id>)
    requires v in venues && forall x :: x in g0 ==> g0[x].venue in venues
    requires |MoveCandidates(g0, a, v, rg.date)| > 1
    ensures UnlinkedUpsert(g0, g0, venues, slug, rg, a, v, p, Err(MultipleGigs(a, rg.date)))
  {
  }

  lemma OneCandidate(g0: map<Id, Gig>, g1: map<Id, Gig>, venues: map<Id, Venue>, slug: string,
                     rg: RippedGig, a: Id, v: Id, p: Option<Id>, r: Result<Id, ImportError>, c: Id)
    requires v in venues && forall x :: x in g0 ==> g0[x].venue in venues
    requires MoveCandidates(g0, a, v, rg.date) == {c}
    requires var g := MovedGig(g0[c], rg, v, p,
                        MovedInformation(rg.info, venues[g0[c].venue].name, venues[v].name));
      && (r.Err? <==> SlotTaken(g0, g, Some(c)))
      && (r.Ok? ==> r == Ok(c) && g1 == g0[c := g])
      && (r.Err? ==> g1 == g0)
    ensures UnlinkedUpsert(g0, g1, venues, slug, rg, a, v, p, r)
  {
    assert |MoveCandidates(g0, a, v, rg.date)| == 1;
  }

  /** Find or create the gig a row describes, under its alias `tag`. A
      linked alias only has its gig's flags refreshed; otherwise see
      `UnlinkedUpsert`. Either way the alias ends up linked. */
  method UpsertGig(db: Database, tag: string, rg: RippedGig, a: Id, v: Id, p: Option<Id>)
    returns (r: Result<Id, ImportError>)
    requires db.Valid()
    requires a in db.artists && v in db.venues && (p.Some? ==> p.value in db.promoters)
    modifies db`identifiers, db`nextId, db`links, db`gigs
    ensures db.Valid()
    ensures Extends(old(db.identifiers), old(db.links), db.identifiers, db.links)
    ensures r.Ok? ==> && r.value in db.gigs && db.Linked(GigKind, tag, r.value)
                      && db.gigs[r.value].soldOut == rg.soldOut
                      && db.gigs[r.value].cancelled == rg.cancelled
    // a linked alias: only the gig's two flags change
    ensures old(HasLinked(db, GigKind, tag)) ==>
              && r.Ok? && old(db.Linked(GigKind, tag, r.value)) && r.value in old(db.gigs)
              && db.Contents() == old(db.Contents()).(gigs := old(db.gigs)[r.value := old(db.gigs[r.value]).(
                                                     soldOut := rg.soldOut, cancelled := rg.cancelled)])
    // otherwise see UpsertUnlinked: a new or moved gig that says what the row says
    ensures !old(HasLinked(db, GigKind, tag)) && r.Ok? ==> GigMatches(db.gigs[r.value], rg, Entities(a, v, p))
  {
    var gi, found := FindAlias(db, tag, GigKind);
    if found.Some? {
      RefreshFlags(db, found.value, rg.soldOut, rg.cancelled);
      r := Ok(found.value);
    } else {
      r := UpsertUnlinked(db, gi, rg, a, v, p);
      if r.Ok? {
        assert db.Linked(GigKind, tag, r.value);
      }
    }
  }

  // ---------------------------------------------------------------------
  // One row, end to end

  /** The canonical records a row was reconciled with. */
  datatype Entities = Entities(artist: Id, venue: Id, promoter: Option<Id>)

  /** The row's town is known: its label is linked, or (no label) the
      default town exists. */
  ghost predicate TownKnown(ids: map<Id, ImportIdentifier>, links: set<Link>, towns: map<Id, Town>,
                            town: Option<string>)
  {
    if Present(town) then HasLinkedIn(ids, links, TownKind, town.value)
    else exists t :: t in towns && towns[t].name == DefaultTown
  }

  /** Every label of the row is linked to the records in `e`. */
  ghost predicate ResolvedTo(ids: map<Id, ImportIdentifier>, links: set<Link>, towns: map<Id, Town>,
                             rg: RippedGig, e: Entities)
  {
    && LinkedIn(ids, links, ArtistKind, rg.artist, e.artist)
    && TownKnown(ids, links, towns, rg.town)
    && LinkedIn(ids, links, VenueKind, rg.venue, e.venue)
    && (if Present(rg.promoter) then e.promoter.Some? && LinkedIn(ids, links, PromoterKind, rg.promoter.value, e.promoter.value)
        else e.promoter.None?)
  }

  /** The row's town, venue and promoter labels are linked to records. */
  ghost predicate PlacesResolved(ids: map<Id, ImportIdentifier>, links: set<Link>, towns: map<Id, Town>,
                                 rg: RippedGig)
  {
    && TownKnown(ids, links, towns, rg.town)
    && HasLinkedIn(ids, links, VenueKind, rg.venue)
    && (Present(rg.promoter) ==> HasLinkedIn(ids, links, PromoterKind, rg.promoter.value))
  }

  /** Every label of the row is linked to some record. */
  ghost predicate Resolved(ids: map<Id, ImportIdentifier>, links: set<Link>, towns: map<Id, Town>,
                           rg: RippedGig)
  {
    && HasLinkedIn(ids, links, ArtistKind, rg.artist)
    && PlacesResolved(ids, links, towns, rg)
  }

  lemma TownsGrowRefl(towns: map<Id, Town>)
    ensures TownsGrow(towns, towns)
  {
  }

  lemma TownKnownPersists(ids0: map<Id, ImportIdentifier>, links0: set<Link>, towns0: map<Id, Town>,
                          ids1: map<Id, ImportIdentifier>, links1: set<Link>, towns1: map<Id, Town>,
                          town: Option<string>)
    requires Extends(ids0, links0, ids1, links1) && TownsGrow(towns0, towns1)
    requires TownKnown(ids0, links0, towns0, town)
    ensures TownKnown(ids1, links1, towns1, town)
  {
    if Present(town) {
      var t :| LinkedIn(ids0, links0, TownKind, town.value, t);
      LinkedPersists(ids0, links0, ids1, links1, TownKind, town.value, t);
    } else {
      var t :| t in towns0 && towns0[t].name == DefaultTown;
      assert t in towns1 && towns1[t].name == DefaultTown;
    }
  }

  /** Reconciliation done, it stays done while the tables only grow. */
  lemma ResolvedPersists(ids0: map<Id, ImportIdentifier>, links0: set<Link>, towns0: map<Id, Town>,
                         ids1: map<Id, ImportIdentifier>, links1: set<Link>, towns1: map<Id, Town>,
                         rg: RippedGig, e: Entities)
    requires Extends(ids0, links0, ids1, links1) && TownsGrow(towns0, towns1)
    requires ResolvedTo(ids0, links0, towns0, rg, e)
    ensures ResolvedTo(ids1, links1, towns1, rg, e)
  {
    LinkedPersists(ids0, links0, ids1, links1, ArtistKind, rg.artist, e.artist);
    TownKnownPersists(ids0, links0, towns0, ids1, links1, towns1, rg.town);
    LinkedPersists(ids0, links0, ids1, links1, VenueKind, rg.venue, e.venue);
    if Present(rg.promoter) {
      LinkedPersists(ids0, links0, ids1, links1, PromoterKind, rg.promoter.value, e.promoter.value);
    }
  }

  /** The row's venue and promoter labels are linked to records. */
  ghost predicate VenueResolved(ids: map<Id, ImportIdentifier>, links: set<Link>, rg: RippedGig)
  {
    && HasLinkedIn(ids, links, VenueKind, rg.venue)
    && (Present(rg.promoter) ==> HasLinkedIn(ids, links, PromoterKind, rg.promoter.value))
  }

  /** The venue and promoter steps of the import loop, for a row whose
      town resolved to `town`. */
  method ResolveVenue(db: Database, rg: RippedGig, town: Id, slugify: string -> string, today: Date)
    returns (r: Result<(Id, Option<Id>), ImportError>)
    requires db.Valid() && town in db.towns
    modifies db`identifiers, db`nextId, db`venues, db`promoters, db`links
    ensures db.Valid()
    ensures Extends(old(db.identifiers), old(db.links), db.identifiers, db.links)
    ensures NoNewGigLinks(old(db.links), db.links)
    ensures r.Err? ==> r.error.Integrity?
    ensures r.Ok? ==> && r.value.0 in db.venues
                      && (r.value.1.Some? ==> r.value.1.value in db.promoters)
                      && LinkedIn(db.identifiers, db.links, VenueKind, rg.venue, r.value.0)
                      && (if Present(rg.promoter)
                          then r.value.1.Some? && LinkedIn(db.identifiers, db.links, PromoterKind, rg.promoter.value, r.value.1.value)
                          else r.value.1.None?)
    // labels already linked change nothing
    ensures old(VenueResolved(db.identifiers, db.links, rg)) ==>
              r.Ok? && db.Contents() == old(db.Contents())
  {
    ghost var resolved := VenueResolved(db.identifiers, db.links, rg);
    ghost var p0: Id := 0;
    if resolved {
      ghost var v0 :| LinkedIn(db.identifiers, db.links, VenueKind, rg.venue, v0);
      assert db.Linked(VenueKind, rg.venue, v0);
      if Present(rg.promoter) {
        p0 :| LinkedIn(db.identifiers, db.links, PromoterKind, rg.promoter.value, p0);
      }
    }
    var venue := ReconcileVenue(db, rg.venue, town, slugify, today);
    if venue.Err? {
      return Err(Integrity(venue.error));
    }
    ghost var ids1, links1 := db.identifiers, db.links;
    var promoter: Option<Id> := None;
    if Present(rg.promoter) {
      assert resolved ==> db.Linked(PromoterKind, rg.promoter.value, p0);
      var found := ReconcilePromoter(db, rg.promoter.value, slugify, today);
      if found.Err? {
        return Err(Integrity(found.error));
      }
      promoter := Some(found.value);
      LinkedPersists(ids1, links1, db.identifiers, db.links, VenueKind, rg.venue, venue.value);
    }
    r := Ok((venue.value, promoter));
  }

  /** The town, venue and promoter steps of the import loop. */
  method ResolvePlaces(db: Database, rg: RippedGig, slugify: string -> string, today: Date)
    returns (r: Result<(Id, Option<Id>), ImportError>)
    requires db.Valid()
    modifies db`identifiers, db`nextId, db`towns, db`venues, db`promoters, db`links
    ensures db.Valid()
    ensures Extends(old(db.identifiers), old(db.links), db.identifiers, db.links)
    ensures NoNewGigLinks(old(db.links), db.links)
    ensures TownsGrow(old(db.towns), db.towns)
    ensures r.Err? ==> r.error.Integrity?
    ensures r.Ok? ==> && r.value.0 in db.venues
                      && (r.value.1.Some? ==> r.value.1.value in db.promoters)
                      && TownKnown(db.identifiers, db.links, db.towns, rg.town)
                      && LinkedIn(db.identifiers, db.links, VenueKind, rg.venue, r.value.0)
                      && (if Present(rg.promoter)
                          then r.value.1.Some? && LinkedIn(db.identifiers, db.links, PromoterKind, rg.promoter.value, r.value.1.value)
                          else r.value.1.None?)
    // a row whose labels are all linked changes nothing
    ensures old(PlacesResolved(db.identifiers, db.links, db.towns, rg)) ==>
              r.Ok? && db.Contents() == old(db.Contents())
  {
    if PlacesResolved(db.identifiers, db.links, db.towns, rg) && Present(rg.town) {
      ghost var t :| LinkedIn(db.identifiers, db.links, TownKind, rg.town.value, t);
      assert db.Linked(TownKind, rg.town.value, t);
    }
    var town := ResolveTown(db, rg.town, slugify, today);
    if town.Err? {
      return Err(Integrity(town.error));
    }
    ghost var ids1, links1 := db.identifiers, db.links;
    r := ResolveVenue(db, rg, town.value, slugify, today);
    if r.Ok? {
      TownKnownPersists(ids1, links1, db.towns, db.identifiers, db.links, db.towns, rg.town);
    }
  }

  /** The artist, town, venue and promoter steps of the import loop. */
  method ResolveEntities(db: Database, rg: RippedGig, slugify: string -> string, today: Date)
    returns (r: Result<Entities, ImportError>)
    requires db.Valid()
    modifies db`identifiers, db`nextId, db`artists, db`towns, db`venues, db`promoters, db`links, db`gigs
    ensures db.Valid()
    ensures Extends(old(db.identifiers), old(db.links), db.identifiers, db.links)
    ensures NoNewGigLinks(old(db.links), db.links)
    ensures TownsGrow(old(db.towns), db.towns)
    ensures db.gigs == old(db.gigs)
    ensures r.Err? ==> r.error.Integrity?
    ensures r.Ok? ==> && r.value.artist in db.artists && r.value.venue in db.venues
                      && (r.value.promoter.Some? ==> r.value.promoter.value in db.promoters)
                      && ResolvedTo(db.identifiers, db.links, db.towns, rg, r.value)
    // a row whose labels are all linked changes nothing
    ensures old(Resolved(db.identifiers, db.links, db.towns, rg)) ==>
              r.Ok? && db.Contents() == old(db.Contents())
  {
    if Resolved(db.identifiers, db.links, db.towns, rg) {
      ghost var a :| LinkedIn(db.identifiers, db.links, ArtistKind, rg.artist, a);
      assert db.Linked(ArtistKind, rg.artist, a);
    }
    var artist := ReconcileArtist(db, rg.artist, slugify, today);
    if artist.Err? {
      return Err(Integrity(artist.error));
    }
    ghost var ids1, links1 := db.identifiers, db.links;
    var places := ResolvePlaces(db, rg, slugify, today);
    if places.Err? {
      return Err(places.error);
    }
    LinkedPersists(ids1, links1, db.identifiers, db.links, ArtistKind, rg.artist, artist.value);
    r := Ok(Entities(artist.value, places.value.0, places.value.1));
  }

  /** The row has been imported under the gig alias `tag`: its labels
      and the alias are linked. */
  ghost predicate Imported(ids: map<Id, ImportIdentifier>, links: set<Link>, towns: map<Id, Town>,
                           rg: RippedGig, tag: string)
  {
    Resolved(ids, links, towns, rg) && HasLinkedIn(ids, links, GigKind, tag)
  }

  /** The stored gig says what the row says, about the records in `e`. */
  predicate GigMatches(g: Gig, rg: RippedGig, e: Entities)
  {
    && g.artist == e.artist && g.venue == e.venue && g.promoter == e.promoter
    && g.date == rg.date && g.price == rg.price
    && g.soldOut == rg.soldOut && g.cancelled == rg.cancelled
  }

  lemma ImportedFrom(ids: map<Id, ImportIdentifier>, links: set<Link>, towns: map<Id, Town>,
                     rg: RippedGig, e: Entities, tag: string, x: Id)
    requires ResolvedTo(ids, links, towns, rg, e) && LinkedIn(ids, links, GigKind, tag, x)
    ensures Imported(ids, links, towns, rg, tag)
  {
  }

  /** The gig says what the row says, about the records the row's
      labels are linked to. */
  ghost predicate GigRecordsRow(ids: map<Id, ImportIdentifier>, links: set<Link>, towns: map<Id, Town>,
                                g: Gig, rg: RippedGig)
  {
    && ResolvedTo(ids, links, towns, rg, Entities(g.artist, g.venue, g.promoter))
    && GigMatches(g, rg, Entities(g.artist, g.venue, g.promoter))
  }

  /** A gig link seen after entity reconciliation was there before it. */
  lemma GigLinkedBefore(ids0: map<Id, ImportIdentifier>, links0: set<Link>,
                        ids1: map<Id, ImportIdentifier>, links1: set<Link>, tag: string, x: Id)
    requires Extends(ids0, links0, ids1, links1) && LinksTyped(links0, ids0)
    requires NoNewGigLinks(links0, links1)
    requires LinkedIn(ids1, links1, GigKind, tag, x)
    ensures LinkedIn(ids0, links0, GigKind, tag, x)
  {
    var i :| i in ids1 && ids1[i] == ImportIdentifier(tag, GigKind) && Link(GigKind, x, i) in links1;
    assert Link(GigKind, x, i) in links0;
  }

  /** An alias linked after entity reconciliation was linked before it. */
  lemma AliasLinkedBefore(ids0: map<Id, ImportIdentifier>, links0: set<Link>,
                          ids1: map<Id, ImportIdentifier>, links1: set<Link>, tag: string)
    requires Extends(ids0, links0, ids1, links1) && LinksTyped(links0, ids0)
    requires NoNewGigLinks(links0, links1)
    requires HasLinkedIn(ids1, links1, GigKind, tag)
    ensures HasLinkedIn(ids0, links0, GigKind, tag)
  {
    var x :| LinkedIn(ids1, links1, GigKind, tag, x);
    GigLinkedBefore(ids0, links0, ids1, links1, tag, x);
  }

  /** Whichever unlinked branch succeeded, the gig it leaves says what
      the row says. */
  lemma UnlinkedMatches(g0: map<Id, Gig>, g1: map<Id, Gig>, venues: map<Id, Venue>, slug: string,
                        rg: RippedGig, a: Id, v: Id, p: Option<Id>, r: Result<Id, ImportError>)
    requires v in venues && forall x :: x in g0 ==> g0[x].venue in venues
    requires UnlinkedUpsert(g0, g1, venues, slug, rg, a, v, p, r) && r.Ok?
    ensures r.value in g1 && GigMatches(g1[r.value], rg, Entities(a, v, p))
  {
    var candidates := MoveCandidates(g0, a, v, rg.date);
    if candidates != {} {
      var c :| c in candidates;
      assert |candidates| == 1;
    }
  }

  /** One pass of the import loop: reconcile the row's labels, then
      upsert its gig under `tag`, the alias the loop computes for the
      row (`GigAlias`). */
  method ImportGig(db: Database, rg: RippedGig, tag: string, slugify: string -> string, today: Date)
    returns (r: Result<Id, ImportError>)
    requires db.Valid()
    modifies db`identifiers, db`nextId, db`artists, db`towns, db`venues, db`promoters, db`links, db`gigs
    ensures db.Valid()
    ensures Extends(old(db.identifiers), old(db.links), db.identifiers, db.links)
    ensures TownsGrow(old(db.towns), db.towns)
    ensures r.Ok? ==> && r.value in db.gigs && Imported(db.identifiers, db.links, db.towns, rg, tag)
                      && LinkedIn(db.identifiers, db.links, GigKind, tag, r.value)
                      && db.gigs[r.value].soldOut == rg.soldOut
                      && db.gigs[r.value].cancelled == rg.cancelled
    // a row met for the first time leaves a gig that says what the row says
    ensures r.Ok? && !old(HasLinkedIn(db.identifiers, db.links, GigKind, tag)) ==>
              GigRecordsRow(db.identifiers, db.links, db.towns, db.gigs[r.value], rg)
    // a row imported before changes nothing but the gig's two flags
    ensures old(Imported(db.identifiers, db.links, db.towns, rg, tag)) ==>
              && r.Ok? && r.value in old(db.gigs)
              && db.Contents() == old(db.Contents()).(gigs := old(db.gigs)[r.value := old(db.gigs[r.value]).(
                                                     soldOut := rg.soldOut, cancelled := rg.cancelled)])
  {
    ghost var ids0, links0 := db.identifiers, db.links;
    ghost var t0 := db.Contents();
    ghost var before := Imported(db.identifiers, db.links, db.towns, rg, tag);
    var resolved := ResolveEntities(db, rg, slugify, today);
    if resolved.Err? {
      return Err(resolved.error);
    }
    var e := resolved.value;
    ghost var ids1, links1 := db.identifiers, db.links;
    if HasLinkedIn(ids1, links1, GigKind, tag) {
      AliasLinkedBefore(ids0, links0, ids1, links1, tag);
    }
    if before {
      assert db.Contents() == t0;
      assert HasLinked(db, GigKind, tag);
    }
    r := UpsertResolved(db, rg, tag, e);
    ExtendsTrans(ids0, links0, ids1, links1, db.identifiers, db.links);
  }

  /** The gig step of the import loop, once the row's labels are linked
      to the records `e`. */
  method UpsertResolved(db: Database, rg: RippedGig, tag: string, e: Entities)
    returns (r: Result<Id, ImportError>)
    requires db.Valid()
    requires e.artist in db.artists && e.venue in db.venues
    requires e.promoter.Some? ==> e.promoter.value in db.promoters
    requires ResolvedTo(db.identifiers, db.links, db.towns, rg, e)
    modifies db`identifiers, db`nextId, db`links, db`gigs
    ensures db.Valid()
    ensures Extends(old(db.identifiers), old(db.links), db.identifiers, db.links)
    ensures r.Ok? ==> && r.value in db.gigs && Imported(db.identifiers, db.links, db.towns, rg, tag)
                      && LinkedIn(db.identifiers, db.links, GigKind, tag, r.value)
                      && db.gigs[r.value].soldOut == rg.soldOut
                      && db.gigs[r.value].cancelled == rg.cancelled
    ensures r.Ok? && !old(HasLinked(db, GigKind, tag)) ==>
              GigRecordsRow(db.identifiers, db.links, db.towns, db.gigs[r.value], rg)
    ensures old(HasLinked(db, GigKind, tag)) ==>
              && r.Ok? && r.value in old(db.gigs)
              && db.Contents() == old(db.Contents()).(gigs := old(db.gigs)[r.value := old(db.gigs[r.value]).(
                                                     soldOut := rg.soldOut, cancelled := rg.cancelled)])
  {
    ghost var ids1, links1 := db.identifiers, db.links;
    r := UpsertGig(db, tag, rg, e.artist, e.venue, e.promoter);
    if r.Ok? {
      TownsGrowRefl(db.towns);
      ResolvedPersists(ids1, links1, db.towns, db.identifiers, db.links, db.towns, rg, e);
      ImportedFrom(db.identifiers, db.links, db.towns, rg, e, tag, r.value);
    }
  }
}
