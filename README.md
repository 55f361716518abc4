# Gigs: a verified model of the gig-listing site's core

The site lists upcoming music gigs in Edinburgh and Glasgow. Its data comes
from two importers:

- The Ripping Records importer reads a spreadsheet of gigs row by row. Month
  header rows set the month of the gig rows below them. Each gig row has four
  cells: date, artist, venue-and-promoter, and price-and-information. Two
  regular expressions split the venue and price cells. Every scraped label
  (artist, town, venue, promoter, and a whole gig) is recorded as an import
  identifier ("alias") and linked to the entity it names. A label seen before
  therefore resolves to the same entity. A gig seen before only has its
  sold-out and cancelled flags refreshed. At the end every artist, venue,
  town and promoter is saved again, so its count of upcoming gigs is current.
- The Guardian review importer builds search URLs for the Guardian's content
  API and reads each result. It saves a review when the result has a star
  rating and a MusicBrainz reference to a known artist, and no review with
  the same external id is stored yet. It trims the headline's " - review"
  suffix and turns the publication stamp into a time.

The model also covers:

- the data model: entities, aliases, uniqueness constraints, the
  upcoming-gig counters, and the gig slugs that follow their artist's slug;
- populating an artist's albums from MusicBrainz releases;
- the artist A–Z list and the week boundaries on the home page;
- the Google Charts sparkline of upcoming gigs per day;
- the `truncate` template filter.

## Layout

| file | module | models |
|---|---|---|
| base.dfy | Base | strings: strip, split/join, digits, `rsplit` |
| dates.dfy | Dates | proleptic Gregorian dates, day numbers, weekdays, ISO format |
| models.dfy | Models | entities, aliases and the `Database` class with its save methods |
| albums.dfy | Albums | `populate_album_set` over a table of albums |
| ripping_parse.dfy | RippingParse | `RippedGig`, the two cell regular expressions, DATE_RE and MONTH_RE |
| ripping_import.dfy | RippingImport | the row scan and importing one gig |
| ripping_run.dfy | RippingRun | the whole import and the counter refresh |
| reviews.dfy | Reviews | `save_review` and the page loop over a review store |
| guardian_api.dfy | GuardianApi | `api_url` and its URL encoding |
| charts.dfy | Charts | the sparkline tag |
| views.dfy | Views | `artist_list` and the home page's week starts |
| typography.dfy | Typography | the `truncate` filter |

The database is a class whose tables are `map` fields, keyed by one shared
id counter. The store methods modify those fields. Pure logic (regular
expressions, URL building, date arithmetic) is written as functions.
The source's loops are methods with loop invariants, each tied by its
postcondition to the specification function it computes.

- Gig importer: the row scan (`ScanRows`), the gig loop (`ImportGigs`)
  and the four counter refreshes (`RefreshArtists` and its siblings).
- Models: the slug receiver's loop over an artist's upcoming gigs
  (`Database.Retag`).
- Albums: `PickCountry` and `AlbumStore.PopulateAlbumSet`.
- Reviews: `ReviewStore.Exists`, `ReviewStore.FindArtist` and
  `ReviewStore.ImportPage`.
- Templates and views: the sparkline loops (`FillDates`, `FillValues`)
  and `ArtistList`.

## Model

Source paths below are relative to the repository's `gigs` application.

| member | source | states |
|---|---|---|
| RippingParse.MakeUsable | management/commands/import_gigs_from_ripping_records.py:91-98 | a cell is cleaned exactly when it is ASCII; otherwise `unicode(str)` raises. The cleaned cell is ASCII and has no `*` at either end |
| RippingParse.MakeUsableShape | management/commands/import_gigs_from_ripping_records.py:91-98 | the cleaned cell is a piece of the cell, and only asterisks were cut off around it |
| RippingParse.MakeUsableIdempotent | management/commands/import_gigs_from_ripping_records.py:91-98 | cleaning a cleaned cell changes nothing |
| RippingParse.Tail | management/commands/import_gigs_from_ripping_records.py:28-29 | the optional town and promoter groups: a town is one or more characters of the class `[Edinburgh\|Glasgow]`, a promoter 1–3 capitals, and together they run to the end of the cell |
| RippingParse.VenueMatchSplits | management/commands/import_gigs_from_ripping_records.py:26-30 | a venue match splits the cell exactly: a non-empty one-line venue, then the optional town and promoter, then the end |
| RippingParse.VenueFromIsLazy | management/commands/import_gigs_from_ripping_records.py:27 | the venue group is the shortest prefix after which the rest of the pattern matches (lazy `.+?`) |
| RippingParse.VenueMatchIff | management/commands/import_gigs_from_ripping_records.py:26-30 | VENUE_AND_PROMOTER_RE matches exactly when the cell is one line and is neither empty nor a lone newline |
| RippingParse.VenueTownPromoter | management/commands/import_gigs_from_ripping_records.py:26-30 | "Barrowlands Glasgow ABC" gives venue "Barrowlands", town "Glasgow" and promoter "ABC" |
| RippingParse.OptStatus | management/commands/import_gigs_from_ripping_records.py:34 | the status group is SOLD OUT (or CANCELLED) exactly when the text starts with those capitals; the group plus the rest rebuild the text |
| RippingParse.OptInfo | management/commands/import_gigs_from_ripping_records.py:35 | the information group matches exactly when the rest is one line; it is non-empty and the match runs to the end |
| RippingParse.MatchPriceSplits | management/commands/import_gigs_from_ripping_records.py:31-36 | a PRICE_RE match covers the whole cell: its groups, reassembled in order, give the cell back, and each group holds text its sub-pattern accepts |
| RippingParse.MatchPriceIff | management/commands/import_gigs_from_ripping_records.py:31-36 | PRICE_RE matches exactly when the cell is one line |
| RippingParse.PriceThenInfo | management/commands/import_gigs_from_ripping_records.py:31-36 | "15.00 Support: X" gives price "15.00", no status, and information "Support: X" |
| RippingParse.BareStatus | management/commands/import_gigs_from_ripping_records.py:34 | "SOLD OUT" alone gives only the status group |
| RippingParse.SecondPriceDropped | management/commands/import_gigs_from_ripping_records.py:33 | in "8.00/?10.00 CANCELLED" the price group is "8.00"; the second price is a separate group the gig never reads |
| RippingParse.LowerCaseStatusIsInformation | management/commands/import_gigs_from_ripping_records.py:34-35 | "sold out" in lower case is not a status (PRICE_RE has no IGNORECASE); it becomes the information text |
| RippingParse.MatchDateDay | management/commands/import_gigs_from_ripping_records.py:23 | the day group is one or more digits starting at the fifth character and followed by two more characters |
| RippingParse.MonthNumber | management/commands/import_gigs_from_ripping_records.py:17-21 | a name maps to month m exactly when it is the m-th capitalised month name; any other name has no number |
| RippingParse.MatchMonthHeader | management/commands/import_gigs_from_ripping_records.py:24-25 | a matched month group equals one of the twelve month names, ignoring case |
| RippingParse.MakeRippedGig | management/commands/import_gigs_from_ripping_records.py:57-98 | the constructor's order of failures: a non-ASCII artist cell, then a non-ASCII venue cell, then a failed venue match, then a non-ASCII price cell, then a failed price match; on success the artist is the cleaned cell, the date is kept, venue/town/promoter are the venue match's groups and price/information the price match's, and sold out (cancelled) holds exactly when the status group is SOLD OUT (CANCELLED) |
| RippingParse.MakeRippedGigSucceeds | management/commands/import_gigs_from_ripping_records.py:57-98 | a gig is built exactly when all three cells are ASCII, the cleaned venue cell is one non-blank line and the cleaned price cell is one line |
| RippingImport.ReadRow | management/commands/import_gigs_from_ripping_records.py:137-170 | a short row never yields a gig, and an empty or unmatched one is ignored; the month changes only on a header row, to the month it names; a four-cell "*DATE*" or "--" row is ignored; a gig row yields a gig (or an error) dated in the given year and month with the cleaned artist, never both sold out and cancelled |
| RippingImport.ReadShortRow | management/commands/import_gigs_from_ripping_records.py:138-155 | a row of fewer than four cells yields no gig: blank and unmatched rows are ignored, and a header row sets the month it names |
| RippingImport.ReadGigRow | management/commands/import_gigs_from_ripping_records.py:156-170 | a gig row yields a gig dated in the given year and month, with the cleaned artist and at most one flag set |
| RippingImport.ReadRowGig | management/commands/import_gigs_from_ripping_records.py:163-170 | a gig read from a row is dated (year, month, the DATE_RE day of the first cell with its `*`s stripped), and is exactly `RippedGig(row[1], row[2], date, row[3])` |
| RippingImport.ReadRowMonth | management/commands/import_gigs_from_ripping_records.py:143-149 | a row read without error changes the month exactly when it is a month header, and then to the header's month |
| RippingImport.ReadRowUsesFourCells | management/commands/import_gigs_from_ripping_records.py:156-170 | cells after the fourth are never read |
| RippingImport.CurrentMonthNoHeader | management/commands/import_gigs_from_ripping_records.py:130 | before the first month header the current month is 1 |
| RippingImport.CurrentMonthLastHeader | management/commands/import_gigs_from_ripping_records.py:143-149 | after a header, the current month is that header's until the next header |
| RippingImport.ScanFrom | management/commands/import_gigs_from_ripping_records.py:135-170 | the scan appends one gig per gig row, in row order, after those already collected, each dated in the given year on a real calendar day |
| RippingImport.ScanFromStep | management/commands/import_gigs_from_ripping_records.py:135-170 | one row of the loop: an error ends the scan, an ignored row is skipped, a header switches the month, and a gig is appended |
| RippingImport.Scan | management/commands/import_gigs_from_ripping_records.py:127-170 | a successful scan gives as many gigs as there are gig rows, all dated in the given year |
| RippingImport.ScanMonthCarry | management/commands/import_gigs_from_ripping_records.py:127-170 | the k-th gig of a successful scan is exactly what the k-th gig row reads as, under the month of the last header above it (or 1) |
| RippingImport.ShortRowsYieldNothing | management/commands/import_gigs_from_ripping_records.py:138-155 | rows that are all shorter than four cells give no gigs |
| RippingImport.ScanRows | management/commands/import_gigs_from_ripping_records.py:127-170 | the loop over the rows computes `Scan` |
| RippingImport.SlugFor | management/commands/import_gigs_from_ripping_records.py:185-186 | a new slug is at most 50 characters and a prefix of the slugified name |
| RippingImport.FindAlias | management/commands/import_gigs_from_ripping_records.py:176-180 | the alias for the label exists afterwards; an entity is found exactly when one was linked to the label before, and then nothing else changes |
| RippingImport.ReconcileArtist | management/commands/import_gigs_from_ripping_records.py:176-188 | a linked label resolves to its artist and changes nothing; otherwise a new artist with the label as name and its slug is created and linked, and the creation fails exactly when that name or slug is taken |
| RippingImport.CreateLinkedArtist | management/commands/import_gigs_from_ripping_records.py:183-188 | creates the artist and links the alias, or fails on a taken name or slug and changes nothing |
| RippingImport.ReconcileTown | management/commands/import_gigs_from_ripping_records.py:191-202 | as for artists, for a town label |
| RippingImport.ResolveTown | management/commands/import_gigs_from_ripping_records.py:190-208 | a present town label is reconciled; with no label the town named "Edinburgh" is fetched or created; a known label or an existing Edinburgh changes nothing |
| RippingImport.ReconcileVenue | management/commands/import_gigs_from_ripping_records.py:210-221 | a linked label resolves to its venue (keeping its town) and changes nothing; otherwise a venue in the resolved town is created, failing exactly when its slug is taken |
| RippingImport.ReconcilePromoter | management/commands/import_gigs_from_ripping_records.py:223-240 | as for artists, for a promoter code |
| RippingImport.ResolveVenue | management/commands/import_gigs_from_ripping_records.py:210-240 | resolves the venue and, when present, the promoter, each linked to its label; no promoter label means no promoter |
| RippingImport.ResolvePlaces | management/commands/import_gigs_from_ripping_records.py:190-240 | resolves town, venue and promoter; a row whose labels are all linked changes nothing |
| RippingImport.ResolveEntities | management/commands/import_gigs_from_ripping_records.py:176-240 | resolves all four labels without touching gigs; the result is linked to each label, and a row whose labels are all linked changes nothing |
| RippingImport.GigAlias | management/commands/import_gigs_from_ripping_records.py:244-245 | the gig label starts with the artist and ends with the ISO date |
| RippingImport.GigAliasDate | management/commands/import_gigs_from_ripping_records.py:244-245 | two gigs with the same label have the same date |
| RippingImport.MovedInformation | management/commands/import_gigs_from_ripping_records.py:276-282 | the new information ends with "Venue changed from X to Y."; it starts with the row's information followed by ". " when there is any, and is the note alone otherwise |
| RippingImport.RefreshFlags | management/commands/import_gigs_from_ripping_records.py:250-262 | only the linked gig's sold-out and cancelled flags change, to the row's |
| RippingImport.AddNewGig | management/commands/import_gigs_from_ripping_records.py:284-292 | creates the gig the row describes, with the artist's slug, and links its label; fails, changing nothing, exactly when the (artist, venue, date) slot is taken |
| RippingImport.MoveGig | management/commands/import_gigs_from_ripping_records.py:268-283 | the gig moves to the new venue, and takes the row's promoter, price, flags and the venue-change note; it fails exactly when the new slot is taken |
| RippingImport.NoCandidate | management/commands/import_gigs_from_ripping_records.py:284-290 | with no gig by the artist that day at another venue, a new gig is created |
| RippingImport.ManyCandidates | management/commands/import_gigs_from_ripping_records.py:268-269 | with two or more such gigs, `get` raises and nothing changes |
| RippingImport.OneCandidate | management/commands/import_gigs_from_ripping_records.py:268-283 | with exactly one such gig, that gig is moved |
| RippingImport.UpsertUnlinked | management/commands/import_gigs_from_ripping_records.py:263-292 | for a label not linked before: the gig is moved or created as the three cases say, and a successful result is linked to the label and carries the row's entities and flags |
| RippingImport.UpsertGig | management/commands/import_gigs_from_ripping_records.py:244-292 | a linked gig label changes only that gig's two flags; otherwise a moved or new gig says what the row says |
| RippingImport.UpsertResolved | management/commands/import_gigs_from_ripping_records.py:242-292 | the gig step once the entities are resolved: a label seen before changes only the two flags, and a new one leaves a gig that records the row |
| RippingImport.ImportGig | management/commands/import_gigs_from_ripping_records.py:174-292 | one pass of the gig loop: on success the row is imported and its gig linked; a row met for the first time leaves a gig that records it; a row imported before changes nothing but the gig's two flags |
| RippingRun.ImportGigs | management/commands/import_gigs_from_ripping_records.py:174-292 | the gigs are imported in order until the first error, and every gig before it is imported; when every gig was imported before, the run changes only flags |
| RippingRun.ImportedAgain | management/commands/import_gigs_from_ripping_records.py:244-262 | a flags-only change keeps every gig imported |
| RippingRun.RefreshArtists | management/commands/import_gigs_from_ripping_records.py:298-300 | every artist is saved with a fresh counter, and each save's slug sync is applied to the gigs |
| RippingRun.RefreshVenues | management/commands/import_gigs_from_ripping_records.py:298-300 | every venue's counter is recomputed |
| RippingRun.RefreshTowns | management/commands/import_gigs_from_ripping_records.py:298-300 | every town's counter is recomputed |
| RippingRun.RefreshPromoters | management/commands/import_gigs_from_ripping_records.py:298-300 | every promoter's counter is recomputed |
| RippingRun.RefreshedCurrent | management/commands/import_gigs_from_ripping_records.py:294-300 | after the refresh every counter equals its entity's number of upcoming gigs, and every upcoming gig carries its artist's slug |
| RippingRun.RefreshedFrame | management/commands/import_gigs_from_ripping_records.py:294-300 | the refresh changes only counters and gig slugs; aliases, links, keys and the gig schedule stay |
| RippingRun.ArtistsCountedCurrent | models.py:186-194 | an artist's counter stays right after the gig slugs change |
| RippingRun.RefreshCounters | management/commands/import_gigs_from_ripping_records.py:298-300 | the four save loops compute the refreshed tables |
| RippingRun.RefreshedKeepsTowns | management/commands/import_gigs_from_ripping_records.py:298-300 | the refresh keeps every town |
| RippingRun.ImportRippingRecords | management/commands/import_gigs_from_ripping_records.py:103-300 | an unreadable sheet changes nothing; a successful run imports every scanned gig, leaves every counter current and every upcoming gig's slug equal to its artist's |
| Models.KindCode | models.py:40-44 | the stored codes of the five alias kinds lie in 1..5 |
| Models.KindCodeInjective | models.py:40-44 | distinct kinds have distinct codes, so the unique (identifier, type) pair separates labels of different kinds |
| Models.FinishedByDayNumber | models.py:120-122 | a gig is finished exactly when its day number is below today's; a published gig is upcoming exactly when it is dated today or later |
| Models.ScheduleCounts | models.py:186-194 | two gig tables with the same schedule give every counter the same target |
| Models.SlugsSynced | models.py:580-592 | the artist's upcoming gigs take its slug, and every other gig and field stays |
| Models.NoGigsNoSync | models.py:580-592 | an artist with no gigs changes no gig |
| Models.GigAdded | models.py:92 | adding a gig whose (artist, venue, date) slot is free keeps the database consistent |
| Models.GigReplaced | models.py:92 | replacing a gig by one whose slot no other gig fills keeps the database consistent |
| Models.Database.LinkedUnique | models.py:58 | a label of one kind links at most one entity |
| Models.Database.GetOrCreateIdentifier | management/commands/import_gigs_from_ripping_records.py:176-177 | `get_or_create`: an existing alias is returned unchanged; otherwise one is added under a fresh id |
| Models.Database.LinkedEntity | management/commands/import_gigs_from_ripping_records.py:179-180 | finds the entity linked to an alias, or reports that there is none |
| Models.Database.AddLink | management/commands/import_gigs_from_ripping_records.py:186 | adds exactly the link between an alias and an entity |
| Models.Database.CreateArtist | models.py:141-142 | a new artist is refused exactly when its name or slug is taken; otherwise it is added under a fresh id |
| Models.Database.CreateTown | models.py:479-480 | as for artists |
| Models.Database.CreateVenue | models.py:416-417 | a new venue is refused exactly when its slug is taken (venue names may repeat) |
| Models.Database.CreatePromoter | models.py:534-535 | as for artists |
| Models.Database.GetOrCreateTownNamed | management/commands/import_gigs_from_ripping_records.py:207 | an existing town of that name is returned unchanged; otherwise one with an empty slug is created, which fails exactly when an empty slug is taken |
| Models.Database.CreateGig | models.py:92 | a new gig is refused exactly when another gig fills its (artist, venue, date) slot |
| Models.Database.SaveGig | models.py:92 | saving a gig is refused exactly when another gig fills its new slot |
| Models.Database.SaveArtist | models.py:171-197 | the counter is updated only when asked, to the number of the artist's upcoming gigs; the save's slug sync is applied to the gigs |
| Models.Database.SyncGigSlugs | models.py:580-592 | the artist's upcoming gigs take its slug, and the schedule stays |
| Models.Database.SaveVenue | models.py:446-472 | the counter is updated only when asked, to the number of upcoming gigs at the venue |
| Models.Database.SaveTown | models.py:504-523 | the counter is updated only when asked, to the number of upcoming gigs at the town's venues |
| Models.Database.SavePromoter | models.py:558-577 | the counter is updated only when asked, to the number of the promoter's upcoming gigs |
| Albums.ReleaseDatesKeys | models.py:234-235 | every release event's country has a date |
| Albums.ReleaseDatesLast | models.py:234-235 | a country's date is that of its last event, as when a dict is built from pairs |
| Albums.PreferredCountryOrder | models.py:238-240 | GB is taken first, then XE, then US, and otherwise no country |
| Albums.PickCountry | models.py:238-252 | the loop over the three countries picks the preferred one |
| Albums.PadIsoDate | models.py:244-251 | a full ISO date parses to itself |
| Albums.PadYear | models.py:244-251 | "2010" becomes 1 January |
| Albums.PadYearMonth | models.py:244-251 | "2010-02" becomes the first of the month |
| Albums.PadFullDate | models.py:244-251 | "y-m-d" becomes that date when it exists |
| Albums.PadImpossibleDate | models.py:248-251 | "2010-2-30" leaves no date (the ValueError is ignored) |
| Albums.NewAlbum | models.py:225-252 | an album is built exactly unless the release id has no "/" or the preferred country's date fails to read; it belongs to the artist, keeps the release's title and ASIN, and takes as mbid the release id's part after its last "/"; with no preferred country it has no date |
| Albums.PreferredCountryEvents | models.py:234-240 | no country is picked exactly when no event is in GB, XE or US |
| Albums.NewAlbumRelease | models.py:230-252 | the album's country is the preferred one, or empty when there is none; its date is that country's padded date |
| Albums.BuildAlbum | models.py:225-252 | computes `NewAlbum` |
| Albums.AddReleaseGrows | models.py:219-253 | one release keeps every stored album and adds at most one, of this artist, for an ASIN not stored before; ASINs stay unique |
| Albums.PopulateGrows | models.py:214-253 | the loop keeps every stored album, and every album it adds is of this artist and carries a new ASIN from the releases |
| Albums.PopulateStoredNothing | models.py:219-224 | when every ASIN is stored, the loop changes nothing |
| Albums.PopulateStoresAll | models.py:214-253 | after a successful run every release with an ASIN is stored |
| Albums.PopulateIdempotent | models.py:199-253 | a second run after a successful one changes nothing |
| Albums.AlbumStore.AddAlbum | models.py:219-253 | the store does what `AddRelease` says, and changes nothing on an error |
| Albums.AlbumStore.SaveNewAlbum | models.py:225-253 | the store does what `AddNew` says, and changes nothing on an error |
| Albums.AlbumStore.PopulateAlbumSet | models.py:199-253 | the store ends as `Populate` says, with the same outcome |
| Charts.CountsByDay | templatetags/charts.py:25-27 | every row's day is a key, and every key is some row's day |
| Charts.CountsByDayRows | templatetags/charts.py:25-27 | with distinct days, each day maps to its row's count |
| Charts.ChartValues | templatetags/charts.py:30-35 | one value per day from today, the day's count or 0 |
| Charts.FillDates | templatetags/charts.py:25-27 | the loop builds `CountsByDay` |
| Charts.FillValues | templatetags/charts.py:28-35 | the loop builds `ChartValues` |
| Charts.SparklineValues | templatetags/charts.py:22-35 | no rows is an error (the source indexes an empty query set); otherwise the values run from today to the last row's day |
| Charts.SparklineCovers | templatetags/charts.py:29-35 | the last value is the last day's count, and each row's count sits at its day |
| Charts.SparklineGaps | templatetags/charts.py:32-35 | a day with no gigs has value 0 |
| Charts.Max | templatetags/charts.py:41 | the maximum is one of the values and at least every value |
| Charts.ChartOptions | templatetags/charts.py:37-43 | the keys are the defaults' and the settings'; settings win, and other defaults stay |
| Charts.ChdDecodes | templatetags/charts.py:40 | "chd" is "t:" then one decimal per value, in order |
| Charts.ChdsBounds | templatetags/charts.py:41 | "chds" is "0," then the maximum value, which bounds every value |
| Charts.SparklineUrl | templatetags/charts.py:44-45 | the URL is the charts endpoint, "?", then the options |
| Charts.UrlPairs | templatetags/charts.py:44-45 | the query splits into one "k=v" piece per option, in item order |
| GuardianApi.FromDateText | management/commands/import_artist_reviews.py:45-46 | `strftime("%Y-%m-%d")` fails exactly before 1900, and otherwise gives text that parses back to the date |
| GuardianApi.PageParams | management/commands/import_artist_reviews.py:40-47 | the defaults, overridden by the keyword arguments, then by "page" and "from-date"; no other key |
| GuardianApi.ApiParams | management/commands/import_artist_reviews.py:35-47 | fails exactly for a from-date before 1900; a given from-date appears and parses back |
| GuardianApi.NoFromDate | management/commands/import_artist_reviews.py:45-47 | without a from-date there is no error, and "from-date" appears only when a keyword argument gives it |
| GuardianApi.ArtistSearchParams | management/commands/import_artist_reviews.py:177-178 | the per-artist search asks for page 1 of the artist's MusicBrainz reference, oldest first, with no from-date |
| GuardianApi.QuotePlus | management/commands/import_artist_reviews.py:48-49 | a quoted text holds no "&" or "=" |
| GuardianApi.QuoteRoundTrip | management/commands/import_artist_reviews.py:48-49 | unquoting a quoted byte string gives it back |
| GuardianApi.ApiUrl | management/commands/import_artist_reviews.py:48-49 | the URL is the search endpoint, "?", then the encoded parameters |
| GuardianApi.ParseEncodedPairs | management/commands/import_artist_reviews.py:48-49 | the encoded pairs decode to the parameters' items |
| GuardianApi.UrlEncodeRoundTrip | management/commands/import_artist_reviews.py:48-49 | the query string decodes to exactly the parameters, one item per key |
| Reviews.TrimHeadlineAsWritten | management/commands/import_artist_reviews.py:70-71 | the headline is cut to a prefix, and stays unchanged exactly when it ends in neither suffix |
| Reviews.TrimDropsReview | management/commands/import_artist_reviews.py:70-71 | a headline ending in " - review" loses exactly that suffix |
| Reviews.TrimLeavesMojibake | management/commands/import_artist_reviews.py:70-71 | cutting 9 characters off the 11-character suffix leaves " â" behind |
| Reviews.TrimHeadline | management/commands/import_artist_reviews.py:70-71 | corrected trim: a prefix, unchanged exactly when neither suffix ends it |
| Reviews.TrimHeadlineSuffix | management/commands/import_artist_reviews.py:70-71 | the corrected trim removes either suffix whole |
| Reviews.ParseClock | management/commands/import_artist_reviews.py:85 | a parsed clock is a second of the day |
| Reviews.ParseLocalTime | management/commands/import_artist_reviews.py:85 | a parsed stamp is a second within the date range |
| Reviews.ClockRoundTrip | management/commands/import_artist_reviews.py:85 | a zero-padded "HH:MM:SS" parses to its seconds |
| Reviews.LocalTimeParts | management/commands/import_artist_reviews.py:85 | "date T clock" parses to the date's day number times a day plus the clock |
| Reviews.ParseZulu | management/commands/import_artist_reviews.py:87 | a "…Z" stamp parses to a second within range |
| Reviews.ZuluStamp | management/commands/import_artist_reviews.py:86-87 | a stamp with no "+" and a final Z is read with offset 0, and both publication dates are its local time |
| Reviews.LocalTimeNoPlus | management/commands/import_artist_reviews.py:75-76 | a formatted local time holds no "+", so `rsplit` keeps it whole |
| Reviews.LastPlus | management/commands/import_artist_reviews.py:75 | `rsplit("+", 1)` splits at the last "+" |
| Reviews.OffsetParts | management/commands/import_artist_reviews.py:81-84 | "h:m" is an offset of h hours and m minutes |
| Reviews.ReadStamp | management/commands/import_artist_reviews.py:73-87 | a read stamp's local time is within range |
| Reviews.ReadWithOffset | management/commands/import_artist_reviews.py:75-85 | a stamp with a "+h:m" part reads as its local time and offset |
| Reviews.OffsetStampReads | management/commands/import_artist_reviews.py:75-85 | "time+tz" reads as the time and the offset |
| Reviews.AddOffset | management/commands/import_artist_reviews.py:84-85 | as written: the time is the local time plus the offset |
| Reviews.ToUtc | management/commands/import_artist_reviews.py:82-85 | corrected: the time plus the offset is the local time |
| Reviews.PublicationDateAsWritten | management/commands/import_artist_reviews.py:73-87 | the stored publication time is within range |
| Reviews.PublicationDate | management/commands/import_artist_reviews.py:73-87 | the corrected publication time is within range |
| Reviews.ConvertedAsWritten | management/commands/import_artist_reviews.py:84-85 | as written, the stored time is local plus offset |
| Reviews.ConvertedToUtc | management/commands/import_artist_reviews.py:82-85 | corrected, the stored time is local minus offset |
| Reviews.OffsetStampAsWritten | management/commands/import_artist_reviews.py:84-85 | "time+tz" is stored as local plus offset, twice the offset later than UTC |
| Reviews.OffsetStampUtc | management/commands/import_artist_reviews.py:82-85 | corrected, "time+tz" is stored as local minus offset |
| Reviews.MatchReferences | management/commands/import_artist_reviews.py:89-105 | an artist is found only when the review is not stored, and it is the artist of the first MusicBrainz reference naming a known mbid; every MusicBrainz reference before that one has a "/" |
| Reviews.MatchReferencesFinds | management/commands/import_artist_reviews.py:89-105 | conversely, for a review not stored, the first matching MusicBrainz reference (all before it with a "/" and an unknown mbid) gives its artist |
| Reviews.NoRatingSavesNothing | management/commands/import_artist_reviews.py:64-68 | a result without a star rating saves nothing |
| Reviews.ReviewToSave | management/commands/import_artist_reviews.py:52-106 | a saved review is new, keeps the result's id and rating, takes the trimmed headline and the stored publication time, and belongs to the artist of the first matching MusicBrainz reference |
| Reviews.SavesMatchedReview | management/commands/import_artist_reviews.py:52-106 | conversely, a new, rated result with its fields present, a readable stamp and a matching MusicBrainz reference is saved, with exactly these fields, under the first matching artist |
| Reviews.SaveKeepsIdsUnique | management/commands/import_artist_reviews.py:94-103 | saving keeps external ids unique |
| Reviews.ImportFrom | management/commands/import_artist_reviews.py:147-150 | the loop only appends, and counts exactly the reviews it appends |
| Reviews.ImportKeepsIdsUnique | management/commands/import_artist_reviews.py:147-168 | a page keeps external ids unique |
| Reviews.ReviewStore.Exists | management/commands/import_artist_reviews.py:95-97 | found exactly when a review with that external id is stored |
| Reviews.ReviewStore.FindArtist | management/commands/import_artist_reviews.py:89-105 | the reference loop computes `MatchReferences` |
| Reviews.ReviewStore.SaveReview | management/commands/import_artist_reviews.py:52-106 | an error changes nothing; an unsaved result returns false; otherwise the review is appended and true is returned |
| Reviews.ReviewStore.ImportPage | management/commands/import_artist_reviews.py:147-150 | the page loop ends as `ImportFrom` says |
| Typography.Truncate | templatetags/typography.py:26-29 | the value is returned unchanged exactly when it fits; otherwise the result ends in an ellipsis |
| Typography.TruncateShape | templatetags/typography.py:26-27 | a truncated value is at most max_length long: a whitespace-stripped piece of the first max_length − 1 characters, then the ellipsis |
| Typography.Truncated | templatetags/typography.py:27 | the kept text neither starts nor ends with whitespace as Python 2.7 defines it (Unicode 5.2, so U+180E included) |
| Typography.TruncateZeroOverruns | templatetags/typography.py:26-27 | with max_length 0 the result is longer than the bound, because `value[:-1]` keeps all but the last character |
| Typography.TruncateIdempotent | templatetags/typography.py:26-29 | truncating twice is truncating once |
| Typography.TruncateAtWord | templatetags/typography.py:27 | a cut right after a word keeps the word and adds the ellipsis |
| Typography.TruncateAtSpace | templatetags/typography.py:27 | a cut just after a space drops the space, so the result is shorter than max_length |
| Typography.TruncateExampleDigits | templatetags/typography.py:17-20 | the two digit examples |
| Typography.TruncateExampleSentence | templatetags/typography.py:21-22 | "This is a long sentence, …" becomes "This is a long…" |
| Typography.TruncateExampleStripped | templatetags/typography.py:23-24 | with max_length 26 the result is "This is a long sentence,…", 25 characters |
| Typography.TrailingSpaceStripped | templatetags/typography.py:27 | `strip()` removes a trailing whitespace character |
| Typography.TruncateDropsVowelSeparator | templatetags/typography.py:26-27 | "abcdefghijklm", U+180E, "XYZ" with the default maximum becomes "abcdefghijklm…": the U+180E is stripped |
| Views.AlphabetDistinct | views.py:118 | "#" then "A" to "Z": 27 distinct letters |
| Views.BucketLetter | views.py:124-126 | a slug's bucket is one of the 27 letters |
| Views.ArtistList | views.py:112-131 | 27 buckets, one per letter, each holding that letter's artists in their listed order, and the artist count; an artist with an empty slug is an error |
| Views.BucketMembers | views.py:123-127 | an artist is in a bucket exactly when its slug's upper-cased first letter is that bucket's letter ("#" for anything not A–Z) |
| Views.BucketsCount | views.py:123-130 | the buckets together hold every artist once |
| Views.EmptyBuckets | views.py:119-121 | the buckets start empty |
| Views.WeekStarts | views.py:21-25 | this week starts on the Monday 0–6 days back; the next two weeks start 7 and 14 days later; no result when that runs past the last date |
| Views.ThisMondayUnique | views.py:23 | that Monday is the only Monday in the seven days ending today |
| Views.SameWeek | views.py:23-24 | every day of this week has this week's Monday as its week start |
| Views.WeekDays | views.py:33-36 | the days from today up to next week lie in this week, and next week's days are counted from its Monday |
| Views.WeekLists | views.py:33-36 | a gig is never in both this week's and next week's list |
| Dates.IsoRoundTrip | management/commands/import_artist_reviews.py:46 | an ISO-formatted date parses back to itself |
| Dates.OrdinalOrder | models.py:122 | date order is day-number order |

## Left out

- Network access, HTTP retries, JSON decoding, CSV reading and logging are
  not modelled. The importers take the decoded rows or results as values.
- The MusicBrainz, Last.fm and Flickr lookups (`get_photo`, `get_biography`,
  `get_musicbrainz_id`, `get_cover_art`) are not modelled. The post_save
  receivers of models.py:595-614 that call them are also left out. So is the
  `populate_album_set` call on every new artist, whose releases are a
  parameter of `PopulateAlbumSet`. In the source, `get_musicbrainz_id`
  (models.py:322-341) queries a fixed artist name and saves that mbid on
  every new artist. Its `except` does not catch the IntegrityError the
  second such save raises.
- Models.Database.CreateArtist: the unique `mbid` column (models.py:149-150),
  whose implicit default is the empty string, is not modelled. Only name and
  slug clashes are refused, whereas in the source the second new artist
  already clashes on the empty mbid.
- `max_length` is not modelled: on alias identifiers and names
  (models.py:53, 141, 416, 479, 534), or on album title, ASIN and mbid
  (models.py:358, 366-367). Price `max_digits` (models.py:76) is not
  modelled either; a price is kept as its text.
- Cells are the byte strings the CSV reader yields, one character per byte.
  `_make_usable_string` decodes them with the ASCII codec, which raises on a
  byte of 0x80 or more. Its NFKD step and `ignore` encoding therefore only
  ever see ASCII text, which they leave alone, and are not modelled further.
- Base.ParseInt, Reviews.ParseOffset and Albums.PadDate read decimal numbers
  as Python's byte-string `int()` does: ASCII digits and ASCII whitespace
  only. The source calls Python 2's `int()` on unicode text there (the JSON
  stamp's offset, the MusicBrainz release date), which also accepts other
  Unicode decimal digits and Unicode whitespace (`int(u"\u0661") == 1`). The
  model rejects those. The Ripping Records day is read from a byte string,
  so there the model agrees with the source.
- `Gig.objects.upcoming()` is not defined in managers.py as shipped. The
  model takes it to mean published and dated today or later.
- `PublishedManager` is imported at models.py:25 and used as the manager
  of Artist, Album, Venue, Town and Promoter (models.py:157, 371, 432, 490,
  544), but managers.py does not define it. The model reads
  `model.objects.all()` (import_gigs_from_ripping_records.py:299) as every
  row of the table.
- `Review` is imported from the models at import_artist_reviews.py:15,
  but models.py does not define it. The model takes it to be a table of
  reviews looked up by `external_id`, holding the fields `save_review`
  passes to its constructor.
- `CURRENT_YEAR` and today's date are independent parameters (`year`,
  `today`). The clock is not modelled.
- `slugify` is a parameter of the importer (a function from text to text).
  Django's slugify is not part of this model.
- Views.BucketLetter: upper-casing is ASCII-only. Slugs are ASCII, so this
  agrees with Python's `upper()` on every slug.
- Charts.SparklineValues: charts.py:29 reads the date with
  `.values()[0]` from a Python 2 dict, whose key order is arbitrary. The
  model takes that value to be the date. Rows have distinct days, as the
  grouped query returns them, in any order. As in the source, the values
  run up to the day of the last row, which need not be the latest day.
- Reviews.ReviewStore.constructor requires unique external ids, so
  `Review.objects.get` never raises MultipleObjectsReturned.
- Reviews.ParseLocalTime: only zero-padded fields are accepted. The
  one-digit and space-padded forms that Python 2.7's `strptime` accepts are
  rejected, e.g. "2010-6-1T9:05:00Z".
- The review command's `handle` (import_artist_reviews.py:112-199) is not
  modelled as a whole. Left out are the earliest review date, the page count
  and the retry loop. Of the second stage (lines 171-199), only its search
  parameters are modelled, by `ArtistSearchParams`.
- `urlencode` of non-byte (non-Latin-1) text is not modelled.
  GuardianApi.QuotePlus requires a byte string, and dict item order is a
  `keys` parameter.
- Albums.PopulateAlbumSet: as in the source, an album found by ASIN is
  left untouched (the `save()` at models.py:253 runs only for a new album).
  The cover-art receiver that fires on new albums is left out.
- Database row order is not modelled. Where the source takes `[0]` of a
  join, the model keeps at most one link per alias, which the importer
  maintains.
- Regular expressions are modelled by the first match their backtracking
  finds. `VenueFromIsLazy` and `MatchPriceIff` show that this is the match
  Python returns.

## Findings

| source | as written | input that shows it | evidently intended | confidence | as-written member | corrected member |
|---|---|---|---|---|---|---|
| management/commands/import_artist_reviews.py:70-71 | the mojibake suffix " â€“ review" is 11 characters long, but `[:-9]` cuts only 9 of them | the headline "X" followed by the 11-character suffix is stored as "X â" | the whole suffix is removed, storing "X". The suffix was probably meant as a real en dash (" – review", U+2013), which neither definition trims | not executed | Reviews.TrimHeadlineAsWritten, Reviews.TrimLeavesMojibake | Reviews.TrimHeadline, Reviews.TrimHeadlineSuffix |
| management/commands/import_artist_reviews.py:82-85 | the "+hh:mm" offset is added to the local time | "2010-06-01T12:00:00+01:00" is stored as 13:00 | the comment says all times are UTC, so the offset is subtracted and 11:00 is stored | not executed | Reviews.PublicationDateAsWritten, Reviews.OffsetStampAsWritten | Reviews.PublicationDate, Reviews.OffsetStampUtc |

The stored review (`ReviewStore.SaveReview`, `ReviewToSave`) follows the code
as written. Both corrected definitions are kept beside it with their
properties proved.
