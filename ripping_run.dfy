/** The Ripping Records import command as a whole: the scan, the import
    loop over the scanned gigs, and the final pass that re-saves every
    artist, venue, town and promoter to refresh its upcoming-gig
    counter. */
module RippingRun {
  import opened Base
  import opened Dates
  import opened Models
  import opened RippingParse
  import opened RippingImport

  // ---------------------------------------------------------------------
  // The import loop

  /** Every gig in `gigs` has been imported under its alias. */
  ghost predicate AllImported(ids: map<Id, ImportIdentifier>, links: set<Link>, towns: map<Id, Town>,
                              gigs: seq<RippedGig>, n: nat)
    requires n <= |gigs| && forall k :: 0 <= k < |gigs| ==> ValidDate(gigs[k].date)
  {
    forall k :: 0 <= k < n ==> Imported(ids, links, towns, gigs[k], GigAlias(gigs[k]))
  }

  /** Only gigs' `sold_out` and `cancelled` flags differ. */
  ghost predicate FlagsOnly(t0: Tables, t1: Tables)
  {
    && t1 == t0.(gigs := t1.gigs)
    && t1.gigs.Keys == t0.gigs.Keys
    && forall x :: x in t0.gigs ==>
         t1.gigs[x] == t0.gigs[x].(soldOut := t1.gigs[x].soldOut, cancelled := t1.gigs[x].cancelled)
  }

  /** Refreshing one more gig's flags keeps the change to flags only. */
  lemma FlagsOnlyStep(t0: Tables, t1: Tables, e: Id, soldOut: bool, cancelled: bool)
    requires FlagsOnly(t0, t1) && e in t1.gigs
    ensures FlagsOnly(t0, t1.(gigs := t1.gigs[e := t1.gigs[e].(soldOut := soldOut, cancelled := cancelled)]))
  {
  }

  lemma HasLinkedPersists(ids0: map<Id, ImportIdentifier>, links0: set<Link>,
                          ids1: map<Id, ImportIdentifier>, links1: set<Link>, kind: Kind, tag: string)
    requires Extends(ids0, links0, ids1, links1) && HasLinkedIn(ids0, links0, kind, tag)
    ensures HasLinkedIn(ids1, links1, kind, tag)
  {
    var e :| LinkedIn(ids0, links0, kind, tag, e);
    LinkedPersists(ids0, links0, ids1, links1, kind, tag, e);
  }

  /** A row once imported stays imported while the tables only grow. */
  lemma ImportedPersists(ids0: map<Id, ImportIdentifier>, links0: set<Link>, towns0: map<Id, Town>,
                         ids1: map<Id, ImportIdentifier>, links1: set<Link>, towns1: map<Id, Town>,
                         rg: RippedGig, tag: string)
    requires Extends(ids0, links0, ids1, links1) && TownsGrow(towns0, towns1)
    requires Imported(ids0, links0, towns0, rg, tag)
    ensures Imported(ids1, links1, towns1, rg, tag)
  {
    HasLinkedPersists(ids0, links0, ids1, links1, ArtistKind, rg.artist);
    TownKnownPersists(ids0, links0, towns0, ids1, links1, towns1, rg.town);
    HasLinkedPersists(ids0, links0, ids1, links1, VenueKind, rg.venue);
    if Present(rg.promoter) {
      HasLinkedPersists(ids0, links0, ids1, links1, PromoterKind, rg.promoter.value);
    }
    HasLinkedPersists(ids0, links0, ids1, links1, GigKind, tag);
  }

  lemma AllImportedPersists(ids0: map<Id, ImportIdentifier>, links0: set<Link>, towns0: map<Id, Town>,
                            ids1: map<Id, ImportIdentifier>, links1: set<Link>, towns1: map<Id, Town>,
                            gigs: seq<RippedGig>, n: nat)
    requires n <= |gigs| && forall k :: 0 <= k < |gigs| ==> ValidDate(gigs[k].date)
    requires Extends(ids0, links0, ids1, links1) && TownsGrow(towns0, towns1)
    requires AllImported(ids0, links0, towns0, gigs, n)
    ensures AllImported(ids1, links1, towns1, gigs, n)
  {
    forall k | 0 <= k < n
      ensures Imported(ids1, links1, towns1, gigs[k], GigAlias(gigs[k]))
    {
      ImportedPersists(ids0, links0, towns0, ids1, links1, towns1, gigs[k], GigAlias(gigs[k]));
    }
  }

  lemma TownsGrowTrans(t0: map<Id, Town>, t1: map<Id, Town>, t2: map<Id, Town>)
    requires TownsGrow(t0, t1) && TownsGrow(t1, t2)
    ensures TownsGrow(t0, t2)
  {
  }

  lemma AllImportedNext(ids: map<Id, ImportIdentifier>, links: set<Link>, towns: map<Id, Town>,
                        gigs: seq<RippedGig>, n: nat)
    requires n < |gigs| && forall k :: 0 <= k < |gigs| ==> ValidDate(gigs[k].date)
    requires AllImported(ids, links, towns, gigs, n)
    requires Imported(ids, links, towns, gigs[n], GigAlias(gigs[n]))
    ensures AllImported(ids, links, towns, gigs, n + 1)
  {
  }

  /** In a run over gigs all imported before, whose changes so far were
      to flags only, the next gig is still imported. */
  lemma ImportedAgain(t0: Tables, t1: Tables, gigs: seq<RippedGig>, n: nat)
    requires n < |gigs| && forall k :: 0 <= k < |gigs| ==> ValidDate(gigs[k].date)
    requires AllImported(t0.identifiers, t0.links, t0.towns, gigs, |gigs|) && FlagsOnly(t0, t1)
    ensures Imported(t1.identifiers, t1.links, t1.towns, gigs[n], GigAlias(gigs[n]))
  {
  }

  /** The `for gig in gigs` loop: each gig is imported under its alias
      in turn; the first exception ends the run, leaving the gigs before
      it imported. A run over gigs that were all imported before changes
      nothing but flags. */
  method ImportGigs(db: Database, gigs: seq<RippedGig>, slugify: string -> string, today: Date)
    returns (done: nat, r: Result<(), ImportError>)
    requires db.Valid() && forall k :: 0 <= k < |gigs| ==> ValidDate(gigs[k].date)
    modifies db`identifiers, db`nextId, db`artists, db`towns, db`venues, db`promoters, db`links, db`gigs
    ensures db.Valid()
    ensures Extends(old(db.identifiers), old(db.links), db.identifiers, db.links)
    ensures TownsGrow(old(db.towns), db.towns)
    ensures done <= |gigs| && (r.Ok? <==> done == |gigs|)
    ensures AllImported(db.identifiers, db.links, db.towns, gigs, done)
    ensures old(AllImported(db.identifiers, db.links, db.towns, gigs, |gigs|)) ==>
              r.Ok? && FlagsOnly(old(db.Contents()), db.Contents())
  {
    ghost var t0 := db.Contents();
    ghost var again := AllImported(db.identifiers, db.links, db.towns, gigs, |gigs|);
    TownsGrowRefl(db.towns);
    done := 0;
    while done < |gigs|
      invariant done <= |gigs| && db.Valid()
      invariant Extends(t0.identifiers, t0.links, db.identifiers, db.links)
      invariant TownsGrow(t0.towns, db.towns)
      invariant AllImported(db.identifiers, db.links, db.towns, gigs, done)
      invariant again ==> FlagsOnly(t0, db.Contents())
    {
      ghost var t1 := db.Contents();
      var tag := GigAlias(gigs[done]);
      if again {
        ImportedAgain(t0, t1, gigs, done);
      }
      var imported := ImportGig(db, gigs[done], tag, slugify, today);
      ExtendsTrans(t0.identifiers, t0.links, t1.identifiers, t1.links, db.identifiers, db.links);
      TownsGrowTrans(t0.towns, t1.towns, db.towns);
      AllImportedPersists(t1.identifiers, t1.links, t1.towns, db.identifiers, db.links, db.towns, gigs, done);
      if imported.Err? {
        return done, Err(imported.error);
      }
      AllImportedNext(db.identifiers, db.links, db.towns, gigs, done);
      if again {
        FlagsOnlyStep(t0, t1, imported.value, gigs[done].soldOut, gigs[done].cancelled);
      }
      done := done + 1;
    }
    r := Ok(());
  }

  // ---------------------------------------------------------------------
  // The counter refresh

  /** Every counter equals the number of upcoming gigs it counts. */
  ghost predicate CountersCurrent(t: Tables, today: Date)
  {
    && (forall a :: a in t.artists ==> t.artists[a].upcomingGigs == |UpcomingOfArtist(t.gigs, a, today)|)
    && (forall v :: v in t.venues ==> t.venues[v].upcomingGigs == |UpcomingAtVenue(t.gigs, v, today)|)
    && (forall x :: x in t.towns ==> t.towns[x].upcomingGigs == |UpcomingInTown(t.gigs, t.venues, x, today)|)
    && (forall p :: p in t.promoters ==> t.promoters[p].upcomingGigs == |UpcomingForPromoter(t.gigs, p, today)|)
  }

  /** The artists with their counters set from `gigs`. */
  function ArtistsCounted(artists: map<Id, Artist>, gigs: map<Id, Gig>, today: Date): map<Id, Artist>
  {
    map a | a in artists :: artists[a].(upcomingGigs := |UpcomingOfArtist(gigs, a, today)|)
  }

  function VenuesCounted(venues: map<Id, Venue>, gigs: map<Id, Gig>, today: Date): map<Id, Venue>
  {
    map v | v in venues :: venues[v].(upcomingGigs := |UpcomingAtVenue(gigs, v, today)|)
  }

  /** Towns count through `venues`, which the venue pass leaves alone but
      for the venues' own counters. */
  function TownsCounted(towns: map<Id, Town>, gigs: map<Id, Gig>, venues: map<Id, Venue>, today: Date): map<Id, Town>
  {
    map t | t in towns :: towns[t].(upcomingGigs := |UpcomingInTown(gigs, venues, t, today)|)
  }

  function PromotersCounted(promoters: map<Id, Promoter>, gigs: map<Id, Gig>, today: Date): map<Id, Promoter>
  {
    map p | p in promoters :: promoters[p].(upcomingGigs := |UpcomingForPromoter(gigs, p, today)|)
  }

  /** A table part-way through a pass: the records still in `todo` as
      they were, the others as the pass leaves them. */
  function PartlyDone<R>(before: map<Id, R>, after: map<Id, R>, todo: set<Id>): (m: map<Id, R>)
    requires after.Keys == before.Keys
    ensures m.Keys == before.Keys
  {
    map x | x in before :: if x in todo then before[x] else after[x]
  }

  /** Nothing done yet is the table as it was; everything done is the
      table as the pass leaves it. */
  lemma PartlyDoneEnds<R>(before: map<Id, R>, after: map<Id, R>)
    requires after.Keys == before.Keys
    ensures PartlyDone(before, after, before.Keys) == before
    ensures PartlyDone(before, after, {}) == after
  {
  }

  /** One more record done is one update. */
  lemma PartlyDoneStep<R>(before: map<Id, R>, after: map<Id, R>, todo: set<Id>, x: Id)
    requires after.Keys == before.Keys && x in todo && todo <= before.Keys
    ensures PartlyDone(before, after, todo)[x := after[x]] == PartlyDone(before, after, todo - {x})
  {
  }

  /** Every upcoming gig carries its artist's slug. */
  ghost predicate SlugsFollowArtists(gigs: map<Id, Gig>, artists: map<Id, Artist>, today: Date)
  {
    forall g :: g in gigs && gigs[g].artist in artists && IsUpcoming(gigs[g], today) ==>
      gigs[g].slug == artists[gigs[g].artist].slug
  }

  /** The gigs after the slug-sync signal has run for the artists in
      `done`: their upcoming gigs carry their slugs. */
  function SyncedFor(gigs: map<Id, Gig>, artists: map<Id, Artist>, done: set<Id>, today: Date): (r: map<Id, Gig>)
    ensures r.Keys == gigs.Keys
  {
    map g | g in gigs ::
      if gigs[g].artist in done && gigs[g].artist in artists && IsUpcoming(gigs[g], today)
      then gigs[g].(slug := artists[gigs[g].artist].slug) else gigs[g]
  }

  /** Only gigs' slugs differ. */
  ghost predicate SlugsOnly(g0: map<Id, Gig>, g1: map<Id, Gig>)
  {
    g1.Keys == g0.Keys && forall x :: x in g0 ==> g1[x] == g0[x].(slug := g1[x].slug)
  }

  /** Changing only slugs changes no counter's target. */
  lemma SlugsOnlySchedule(g0: map<Id, Gig>, g1: map<Id, Gig>)
    requires SlugsOnly(g0, g1)
    ensures SameSchedule(g0, g1)
  {
    forall g | g in g0 ensures g1[g].date == g0[g].date && g1[g].published == g0[g].published {
      assert g1[g] == g0[g].(slug := g1[g].slug);
    }
  }

  /** Syncing slugs changes only slugs, so no counter's target. */
  lemma SyncedForSchedule(gigs: map<Id, Gig>, artists: map<Id, Artist>, done: set<Id>, today: Date)
    ensures SlugsOnly(gigs, SyncedFor(gigs, artists, done, today))
    ensures SameSchedule(gigs, SyncedFor(gigs, artists, done, today))
  {
    var r := SyncedFor(gigs, artists, done, today);
    forall g | g in gigs ensures r[g] == gigs[g].(slug := r[g].slug) {
    }
    SlugsOnlySchedule(gigs, r);
  }

  /** Syncing one more artist's gigs. */
  lemma SyncedForStep(gigs: map<Id, Gig>, artists: map<Id, Artist>, done: set<Id>, a: Id, today: Date)
    requires a in artists && a !in done
    ensures SlugsSynced(SyncedFor(gigs, artists, done, today), a, artists[a].slug, today)
              == SyncedFor(gigs, artists, done + {a}, today)
  {
    var g1 := SyncedFor(gigs, artists, done, today);
    SyncedForSchedule(gigs, artists, done, today);
    ScheduleCounts(gigs, g1, map[], today);
    assert UpcomingOfArtist(g1, a, today) == UpcomingOfArtist(gigs, a, today);
  }

  /** With every artist synced, every upcoming gig carries its artist's
      slug. */
  lemma SyncedForAll(gigs: map<Id, Gig>, artists: map<Id, Artist>, today: Date)
    ensures SlugsFollowArtists(SyncedFor(gigs, artists, artists.Keys, today), artists, today)
  {
  }

  /** `for obj in Artist.objects.all(): obj.save(update_number_of_upcoming_gigs=True)`,
      each save followed by the slug-sync signal. */
  method RefreshArtists(db: Database, today: Date)
    requires db.Valid()
    modifies db`artists, db`gigs
    ensures db.Valid()
    ensures db.artists == ArtistsCounted(old(db.artists), old(db.gigs), today)
    ensures db.gigs == SyncedFor(old(db.gigs), old(db.artists), old(db.artists.Keys), today)
  {
    ghost var a0, g0 := db.artists, db.gigs;
    ghost var a1 := ArtistsCounted(a0, g0, today);
    PartlyDoneEnds(a0, a1);
    var todo := db.artists.Keys;
    while todo != {}
      invariant db.Valid() && todo <= a0.Keys
      invariant db.artists == PartlyDone(a0, a1, todo)
      invariant db.gigs == SyncedFor(g0, a0, a0.Keys - todo, today)
      decreases todo
    {
      var a :| a in todo;
      ghost var done := a0.Keys - todo;
      PartlyDoneStep(a0, a1, todo, a);
      SyncedForStep(g0, a0, done, a, today);
      SyncedForSchedule(g0, a0, done, today);
      ScheduleCounts(g0, db.gigs, db.venues, today);
      assert db.artists[a] == a0[a];
      db.SaveArtist(a, true, today);
      assert db.artists == PartlyDone(a0, a1, todo)[a := a1[a]];
      assert db.gigs == SyncedFor(g0, a0, done + {a}, today);
      assert a0.Keys - (todo - {a}) == done + {a};
      todo := todo - {a};
    }
    assert a0.Keys - todo == a0.Keys;
  }

  /** The venue pass of the refresh. */
  method RefreshVenues(db: Database, today: Date)
    requires db.Valid()
    modifies db`venues
    ensures db.Valid()
    ensures db.venues == VenuesCounted(old(db.venues), db.gigs, today)
  {
    ghost var v0 := db.venues;
    ghost var v1 := VenuesCounted(v0, db.gigs, today);
    PartlyDoneEnds(v0, v1);
    var todo := db.venues.Keys;
    while todo != {}
      invariant db.Valid() && todo <= v0.Keys
      invariant db.venues == PartlyDone(v0, v1, todo)
      decreases todo
    {
      var v :| v in todo;
      PartlyDoneStep(v0, v1, todo, v);
      db.SaveVenue(v, true, today);
      todo := todo - {v};
    }
  }

  /** The town pass of the refresh: a town counts its venues' gigs. */
  method RefreshTowns(db: Database, today: Date)
    requires db.Valid()
    modifies db`towns
    ensures db.Valid()
    ensures db.towns == TownsCounted(old(db.towns), db.gigs, db.venues, today)
  {
    ghost var t0 := db.towns;
    ghost var t1 := TownsCounted(t0, db.gigs, db.venues, today);
    PartlyDoneEnds(t0, t1);
    var todo := db.towns.Keys;
    while todo != {}
      invariant db.Valid() && todo <= t0.Keys
      invariant db.towns == PartlyDone(t0, t1, todo)
      decreases todo
    {
      var t :| t in todo;
      PartlyDoneStep(t0, t1, todo, t);
      db.SaveTown(t, true, today);
      todo := todo - {t};
    }
  }

  /** The promoter pass of the refresh. */
  method RefreshPromoters(db: Database, today: Date)
    requires db.Valid()
    modifies db`promoters
    ensures db.Valid()
    ensures db.promoters == PromotersCounted(old(db.promoters), db.gigs, today)
  {
    ghost var p0 := db.promoters;
    ghost var p1 := PromotersCounted(p0, db.gigs, today);
    PartlyDoneEnds(p0, p1);
    var todo := db.promoters.Keys;
    while todo != {}
      invariant db.Valid() && todo <= p0.Keys
      invariant db.promoters == PartlyDone(p0, p1, todo)
      decreases todo
    {
      var p :| p in todo;
      PartlyDoneStep(p0, p1, todo, p);
      db.SavePromoter(p, true, today);
      todo := todo - {p};
    }
  }

  /** The tables after the final pass. */
  function Refreshed(t: Tables, today: Date): Tables
  {
    var gigs := SyncedFor(t.gigs, t.artists, t.artists.Keys, today);
    var venues := VenuesCounted(t.venues, gigs, today);
    t.(artists := ArtistsCounted(t.artists, t.gigs, today), gigs := gigs, venues := venues,
       towns := TownsCounted(t.towns, gigs, venues, today),
       promoters := PromotersCounted(t.promoters, gigs, today))
  }

  /** After the final pass every counter is current and every upcoming
      gig carries its artist's slug. */
  lemma RefreshedCurrent(t: Tables, today: Date)
    ensures CountersCurrent(Refreshed(t, today), today)
    ensures SlugsFollowArtists(Refreshed(t, today).gigs, Refreshed(t, today).artists, today)
  {
    var r := Refreshed(t, today);
    SyncedForSchedule(t.gigs, t.artists, t.artists.Keys, today);
    SyncedForAll(t.gigs, t.artists, today);
    ArtistsCountedCurrent(t.artists, t.gigs, r.gigs, today);
  }

  /** The final pass changes nothing but counters and gig slugs: not the
      aliases, the links, the set of records, or the gigs' schedule. */
  lemma RefreshedFrame(t: Tables, today: Date)
    ensures var r := Refreshed(t, today);
      && r.identifiers == t.identifiers && r.links == t.links && r.nextId == t.nextId
      && SlugsOnly(t.gigs, r.gigs) && SameSchedule(t.gigs, r.gigs)
      && r.artists.Keys == t.artists.Keys && r.venues.Keys == t.venues.Keys
      && r.towns.Keys == t.towns.Keys && r.promoters.Keys == t.promoters.Keys
      && (forall a :: a in r.artists ==> r.artists[a] == t.artists[a].(upcomingGigs := r.artists[a].upcomingGigs))
      && (forall v :: v in r.venues ==> r.venues[v] == t.venues[v].(upcomingGigs := r.venues[v].upcomingGigs))
      && (forall x :: x in r.towns ==> r.towns[x] == t.towns[x].(upcomingGigs := r.towns[x].upcomingGigs))
      && (forall p :: p in r.promoters ==>
            r.promoters[p] == t.promoters[p].(upcomingGigs := r.promoters[p].upcomingGigs))
  {
    SyncedForSchedule(t.gigs, t.artists, t.artists.Keys, today);
  }

  /** The artists were counted before the slug sync, which changes no
      count. */
  lemma ArtistsCountedCurrent(artists: map<Id, Artist>, g0: map<Id, Gig>, g1: map<Id, Gig>, today: Date)
    requires SameSchedule(g0, g1)
    ensures var r := ArtistsCounted(artists, g0, today);
      forall a :: a in r ==> r[a].upcomingGigs == |UpcomingOfArtist(g1, a, today)|
  {
    ScheduleCounts(g0, g1, map[], today);
  }

  /** The final pass, `for model in [Artist, Venue, Town, Promoter]`. */
  method RefreshCounters(db: Database, today: Date)
    requires db.Valid()
    modifies db`artists, db`venues, db`towns, db`promoters, db`gigs
    ensures db.Valid()
    ensures db.Contents() == Refreshed(old(db.Contents()), today)
  {
    RefreshArtists(db, today);
    RefreshVenues(db, today);
    RefreshTowns(db, today);
    RefreshPromoters(db, today);
  }

  /** The counter refresh leaves town names alone. */
  lemma RefreshedKeepsTowns(t: Tables, today: Date)
    ensures TownsGrow(t.towns, Refreshed(t, today).towns)
  {
  }

  // ---------------------------------------------------------------------
  // handle_noargs

  /** The whole command on the spreadsheet's rows. A row the scan cannot
      read stops the command before the database is touched; an error in
      the import loop stops it before the refresh. A complete run leaves
      every scanned gig imported and every counter current. */
  method ImportRippingRecords(db: Database, rows: seq<Row>, year: int, slugify: string -> string, today: Date)
    returns (r: Result<(), ImportError>)
    requires db.Valid()
    modifies db`identifiers, db`nextId, db`artists, db`towns, db`venues, db`promoters, db`links, db`gigs
    ensures db.Valid()
    ensures Extends(old(db.identifiers), old(db.links), db.identifiers, db.links)
    ensures Scan(rows, year).Err? ==> r == Err(Unreadable(Scan(rows, year).error)) && db.Contents() == old(db.Contents())
    ensures r.Ok? ==> && Scan(rows, year).Ok?
                      && AllImported(db.identifiers, db.links, db.towns, Scan(rows, year).value, |Scan(rows, year).value|)
                      && CountersCurrent(db.Contents(), today)
                      && SlugsFollowArtists(db.gigs, db.artists, today)
  {
    var scanned := ScanRows(rows, year);
    if scanned.Err? {
      return Err(Unreadable(scanned.error));
    }
    var gigs := scanned.value;
    var done, imported := ImportGigs(db, gigs, slugify, today);
    if imported.Err? {
      return imported;
    }
    ghost var t1 := db.Contents();
    RefreshCounters(db, today);
    RefreshedCurrent(t1, today);
    RefreshedKeepsTowns(t1, today);
    AllImportedPersists(t1.identifiers, t1.links, t1.towns, db.identifiers, db.links, db.towns, gigs, |gigs|);
    r := Ok(());
  }
}
