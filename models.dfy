/** The gig site's data model (models.py): the five canonical entities,
    the import identifiers ("aliases") that scraped labels are recorded
    under, the join tables linking aliases to entities, and the database
    that holds them, with the uniqueness constraints the schema declares. */
module Models {
  import opened Base
  import opened Dates

  /** A primary key.  One counter serves every table: keys are opaque. */
  type Id = nat

  /** `ImportIdentifier.type`: which kind of entity an alias names. */
  datatype Kind = GigKind | ArtistKind | VenueKind | TownKind | PromoterKind

  /** The integer stored for each kind (GIG_IMPORT_TYPE = 1 ...). */
  function KindCode(k: Kind): (c: int)
    ensures 1 <= c <= 5
  {
    match k
    case GigKind => 1
    case ArtistKind => 2
    case VenueKind => 3
    case TownKind => 4
    case PromoterKind => 5
  }

  /** Distinct kinds are stored as distinct codes, so the unique pair
      (identifier, type) tells apart a gig label and an artist label with
      the same text. */
  lemma KindCodeInjective(a: Kind, b: Kind)
    ensures KindCode(a) == KindCode(b) ==> a == b
  {
  }

  /** A scraped label, tagged with the kind of entity it names. */
  datatype ImportIdentifier = ImportIdentifier(identifier: string, kind: Kind)

  /** A row of the `import_identifiers` join table of entity kind `kind`. */
  datatype Link = Link(kind: Kind, entity: Id, ident: Id)

  datatype Artist = Artist(name: string, slug: string, published: bool, upcomingGigs: int)
  datatype Town = Town(name: string, slug: string, published: bool, upcomingGigs: int)
  datatype Venue = Venue(name: string, slug: string, town: Id, published: bool, upcomingGigs: int)
  datatype Promoter = Promoter(name: string, slug: string, published: bool, upcomingGigs: int)

  datatype Gig = Gig(
    artist: Id, slug: string, venue: Id, promoter: Option<Id>, date: Date,
    price: Option<string>, soldOut: bool, cancelled: bool,
    extraInformation: Option<string>, published: bool)

  /** The storage layer's IntegrityError: which unique constraint failed. */
  datatype IntegrityError =
    | DuplicateName(kind: Kind, name: string)
    | DuplicateSlug(kind: Kind, slug: string)
    | DuplicateGig(artist: Id, venue: Id, date: Date)

  // ---------------------------------------------------------------------
  // Gig predicates

  /** `Gig.is_finished()`. */
  predicate IsFinished(g: Gig, today: Date)
  {
    Before(g.date, today)
  }

  /** The `upcoming()` filter: published and dated today or later. */
  predicate IsUpcoming(g: Gig, today: Date)
  {
    g.published && !Before(g.date, today)
  }

  /** A gig is finished exactly when its day number is below today's. */
  lemma FinishedByDayNumber(g: Gig, today: Date)
    requires ValidDate(g.date) && ValidDate(today)
    ensures IsFinished(g, today) <==> ToOrdinal(g.date) < ToOrdinal(today)
    ensures g.published ==> (IsUpcoming(g, today) <==> ToOrdinal(today) <= ToOrdinal(g.date))
  {
    OrdinalOrder(g.date, today);
    OrdinalOrder(today, g.date);
  }

  /** Two gigs fill the same (artist, venue, date) slot. */
  predicate SameSlot(a: Gig, b: Gig)
  {
    a.artist == b.artist && a.venue == b.venue && a.date == b.date
  }

  // ---------------------------------------------------------------------
  // Upcoming-gig sets behind the `number_of_upcoming_gigs` counters

  function UpcomingOfArtist(gigs: map<Id, Gig>, a: Id, today: Date): set<Id>
  {
    set g | g in gigs && gigs[g].artist == a && IsUpcoming(gigs[g], today)
  }

  function UpcomingAtVenue(gigs: map<Id, Gig>, v: Id, today: Date): set<Id>
  {
    set g | g in gigs && gigs[g].venue == v && IsUpcoming(gigs[g], today)
  }

  /** A town's gigs are found through their venues. */
  function UpcomingInTown(gigs: map<Id, Gig>, venues: map<Id, Venue>, t: Id, today: Date): set<Id>
  {
    set g | g in gigs && gigs[g].venue in venues && venues[gigs[g].venue].town == t
                && IsUpcoming(gigs[g], today)
  }

  function UpcomingForPromoter(gigs: map<Id, Gig>, p: Id, today: Date): set<Id>
  {
    set g | g in gigs && gigs[g].promoter == Some(p) && IsUpcoming(gigs[g], today)
  }

  /** Two gig tables agree on everything the counters look at. */
  ghost predicate SameSchedule(g1: map<Id, Gig>, g2: map<Id, Gig>)
  {
    && g1.Keys == g2.Keys
    && forall g :: g in g1 ==>
         && g1[g].artist == g2[g].artist && g1[g].venue == g2[g].venue
         && g1[g].promoter == g2[g].promoter && g1[g].date == g2[g].date
         && g1[g].published == g2[g].published
  }

  /** Changes that keep the schedule keep every counter's target. */
  lemma ScheduleCounts(g1: map<Id, Gig>, g2: map<Id, Gig>, venues: map<Id, Venue>, today: Date)
    requires SameSchedule(g1, g2)
    ensures forall a :: UpcomingOfArtist(g1, a, today) == UpcomingOfArtist(g2, a, today)
    ensures forall v :: UpcomingAtVenue(g1, v, today) == UpcomingAtVenue(g2, v, today)
    ensures forall t :: UpcomingInTown(g1, venues, t, today) == UpcomingInTown(g2, venues, t, today)
    ensures forall p :: UpcomingForPromoter(g1, p, today) == UpcomingForPromoter(g2, p, today)
  {
  }

  /** The gig table with the gigs in `ids` carrying `slug`. */
  function WithSlug(gigs: map<Id, Gig>, ids: set<Id>, slug: string): (r: map<Id, Gig>)
    ensures r.Keys == gigs.Keys
  {
    map g | g in gigs :: if g in ids then gigs[g].(slug := slug) else gigs[g]
  }

  /** The gig table after the slug-sync signal for artist `a`: every
      upcoming gig of `a` carries `slug`; nothing else changes. */
  function SlugsSynced(gigs: map<Id, Gig>, a: Id, slug: string, today: Date): (r: map<Id, Gig>)
    ensures r.Keys == gigs.Keys
    ensures forall g :: g in r && g in UpcomingOfArtist(gigs, a, today) ==> r[g].slug == slug
    ensures forall g :: g in r && g !in UpcomingOfArtist(gigs, a, today) ==> r[g] == gigs[g]
    ensures forall g :: g in r ==> r[g] == gigs[g].(slug := r[g].slug)
    ensures SameSchedule(gigs, r)
  {
    WithSlugSchedule(gigs, UpcomingOfArtist(gigs, a, today), slug);
    WithSlug(gigs, UpcomingOfArtist(gigs, a, today), slug)
  }

  lemma WithSlugSchedule(gigs: map<Id, Gig>, ids: set<Id>, slug: string)
    ensures SameSchedule(gigs, WithSlug(gigs, ids, slug))
  {
  }

  lemma WithSlugStep(gigs: map<Id, Gig>, done: set<Id>, g: Id, slug: string)
    requires g in gigs
    ensures WithSlug(gigs, done, slug)[g := gigs[g].(slug := slug)] == WithSlug(gigs, done + {g}, slug)
  {
  }

  // ---------------------------------------------------------------------
  // Database invariants, each over the tables it mentions


  /** `unique_together = (('identifier', 'type'),)`. */
  ghost predicate UniqueIdentifiers(ids: map<Id, ImportIdentifier>)
  {
    forall i, j :: i in ids && j in ids && ids[i] == ids[j] ==> i == j
  }

  /** Every join-table row names an existing alias of the table's kind. */
  ghost predicate LinksTyped(links: set<Link>, ids: map<Id, ImportIdentifier>)
  {
    forall l :: l in links ==> l.ident in ids && ids[l.ident].kind == l.kind
  }

  /** An alias is linked to at most one entity of its kind. */
  ghost predicate LinksFunctional(links: set<Link>)
  {
    forall l1, l2 :: l1 in links && l2 in links && l1.kind == l2.kind && l1.ident == l2.ident
      ==> l1.entity == l2.entity
  }

  ghost predicate LinksResolve(links: set<Link>, gigs: set<Id>, artists: set<Id>,
                               venues: set<Id>, towns: set<Id>, promoters: set<Id>)
  {
    forall l :: l in links ==>
      match l.kind
      case GigKind => l.entity in gigs
      case ArtistKind => l.entity in artists
      case VenueKind => l.entity in venues
      case TownKind => l.entity in towns
      case PromoterKind => l.entity in promoters
  }

  /** Artist.name and Artist.slug are unique. */
  ghost predicate ArtistsUnique(artists: map<Id, Artist>)
  {
    forall a, b :: a in artists && b in artists && a != b ==>
      artists[a].name != artists[b].name && artists[a].slug != artists[b].slug
  }

  /** Town.name and Town.slug are unique. */
  ghost predicate TownsUnique(towns: map<Id, Town>)
  {
    forall a, b :: a in towns && b in towns && a != b ==>
      towns[a].name != towns[b].name && towns[a].slug != towns[b].slug
  }

  /** Venue.slug is unique. */
  ghost predicate VenuesUnique(venues: map<Id, Venue>)
  {
    forall a, b :: a in venues && b in venues && a != b ==> venues[a].slug != venues[b].slug
  }

  /** Promoter.name and Promoter.slug are unique. */
  ghost predicate PromotersUnique(promoters: map<Id, Promoter>)
  {
    forall a, b :: a in promoters && b in promoters && a != b ==>
      promoters[a].name != promoters[b].name && promoters[a].slug != promoters[b].slug
  }

  /** `unique_together = (('artist', 'venue', 'date'),)` on Gig. */
  ghost predicate GigsUnique(gigs: map<Id, Gig>)
  {
    forall a, b :: a in gigs && b in gigs && a != b ==> !SameSlot(gigs[a], gigs[b])
  }

  /** Foreign keys of gigs resolve. */
  ghost predicate GigsRefer(gigs: map<Id, Gig>, artists: set<Id>, venues: set<Id>, promoters: set<Id>)
  {
    forall g :: g in gigs ==>
      gigs[g].artist in artists && gigs[g].venue in venues
      && (gigs[g].promoter.Some? ==> gigs[g].promoter.value in promoters)
  }

  /** Venue.town resolves. */
  ghost predicate VenuesRefer(venues: map<Id, Venue>, towns: set<Id>)
  {
    forall v :: v in venues ==> venues[v].town in towns
  }

  /** Adding a row for an alias that is unlinked, or already linked to
      the same entity, keeps the join tables typed and functional. */
  lemma LinksExtend(links: set<Link>, added: Link, ids: map<Id, ImportIdentifier>)
    requires LinksTyped(links, ids) && LinksFunctional(links)
    requires added.ident in ids && ids[added.ident].kind == added.kind
    requires forall x :: Link(added.kind, x, added.ident) in links ==> x == added.entity
    ensures LinksTyped(links + {added}, ids) && LinksFunctional(links + {added})
  {
    forall l1, l2 | l1 in links + {added} && l2 in links + {added}
                    && l1.kind == l2.kind && l1.ident == l2.ident
      ensures l1.entity == l2.entity
    {
      if l1 == added && l2 != added {
        assert Link(added.kind, l2.entity, added.ident) == l2;
      } else if l2 == added && l1 != added {
        assert Link(added.kind, l1.entity, added.ident) == l1;
      }
    }
  }

  /** Rewriting one gig into a free slot keeps the gig invariants. */
  lemma GigsReplace(gigs: map<Id, Gig>, id: Id, g: Gig,
                    artists: set<Id>, venues: set<Id>, promoters: set<Id>)
    requires id in gigs && GigsUnique(gigs)
    requires GigsRefer(gigs, artists, venues, promoters)
    requires g.artist in artists && g.venue in venues
    requires g.promoter.Some? ==> g.promoter.value in promoters
    requires forall x :: x in gigs && x != id ==> !SameSlot(gigs[x], g)
    ensures gigs[id := g].Keys == gigs.Keys && GigsUnique(gigs[id := g])
    ensures GigsRefer(gigs[id := g], artists, venues, promoters)
  {
  }

  /** A change of schedule-neutral fields keeps the gig invariants. */
  lemma ScheduleKeepsGigInvariants(g1: map<Id, Gig>, g2: map<Id, Gig>,
                                   artists: set<Id>, venues: set<Id>, promoters: set<Id>)
    requires SameSchedule(g1, g2)
    requires GigsUnique(g1) && GigsRefer(g1, artists, venues, promoters)
    ensures GigsUnique(g2) && GigsRefer(g2, artists, venues, promoters)
  {
    forall a, b | a in g2 && b in g2 && a != b ensures !SameSlot(g2[a], g2[b]) {
      assert !SameSlot(g1[a], g1[b]);
    }
  }

  /** The alias (tag, kind) exists and is linked to entity `e`. */
  ghost predicate LinkedIn(ids: map<Id, ImportIdentifier>, links: set<Link>, kind: Kind, tag: string, e: Id)
  {
    exists i :: i in ids && ids[i] == ImportIdentifier(tag, kind) && Link(kind, e, i) in links
  }

  /** The alias table and the join tables only grew: existing aliases
      keep their key and label, existing links stay. */
  ghost predicate Extends(ids0: map<Id, ImportIdentifier>, links0: set<Link>,
                          ids1: map<Id, ImportIdentifier>, links1: set<Link>)
  {
    links0 <= links1 && forall i :: i in ids0 ==> i in ids1 && ids1[i] == ids0[i]
  }

  /** A link, once made, survives every change that only grows the tables. */
  lemma LinkedPersists(ids0: map<Id, ImportIdentifier>, links0: set<Link>,
                       ids1: map<Id, ImportIdentifier>, links1: set<Link>,
                       kind: Kind, tag: string, e: Id)
    requires Extends(ids0, links0, ids1, links1) && LinkedIn(ids0, links0, kind, tag, e)
    ensures LinkedIn(ids1, links1, kind, tag, e)
  {
    var i :| i in ids0 && ids0[i] == ImportIdentifier(tag, kind) && Link(kind, e, i) in links0;
    assert i in ids1 && ids1[i] == ImportIdentifier(tag, kind) && Link(kind, e, i) in links1;
  }

  lemma ExtendsTrans(ids0: map<Id, ImportIdentifier>, links0: set<Link>,
                     ids1: map<Id, ImportIdentifier>, links1: set<Link>,
                     ids2: map<Id, ImportIdentifier>, links2: set<Link>)
    requires Extends(ids0, links0, ids1, links1) && Extends(ids1, links1, ids2, links2)
    ensures Extends(ids0, links0, ids2, links2)
  {
  }

  /** The slug signal of an artist with no gigs changes nothing. */
  lemma NoGigsNoSync(gigs: map<Id, Gig>, a: Id, slug: string, today: Date)
    requires forall g :: g in gigs ==> gigs[g].artist != a
    ensures SlugsSynced(gigs, a, slug, today) == gigs
  {
    assert UpcomingOfArtist(gigs, a, today) == {};
  }

  // ---------------------------------------------------------------------
  // The database

  /** The contents of every table, as one value. */
  datatype Tables = Tables(
    identifiers: map<Id, ImportIdentifier>, links: set<Link>, nextId: Id,
    artists: map<Id, Artist>, venues: map<Id, Venue>, towns: map<Id, Town>,
    promoters: map<Id, Promoter>, gigs: map<Id, Gig>)

  /** Every key in use is below the counter, so the counter is fresh. */
  ghost predicate KeysBelow(t: Tables)
  {
    forall k ::
      (k in t.identifiers || k in t.artists || k in t.venues || k in t.towns
       || k in t.promoters || k in t.gigs) ==> k < t.nextId
  }

  /** Every constraint the schema declares, on the tables' contents:
      keys below the counter, unique aliases, typed and functional join
      tables whose rows resolve, unique names and slugs, and foreign
      keys that resolve. */
  ghost predicate Consistent(t: Tables)
  {
    match t
    case Tables(identifiers, links, nextId, artists, venues, towns, promoters, gigs) =>
    && KeysBelow(t)
    && UniqueIdentifiers(identifiers)
    && LinksTyped(links, identifiers)
    && LinksFunctional(links)
    && LinksResolve(links, gigs.Keys, artists.Keys, venues.Keys, towns.Keys, promoters.Keys)
    && ArtistsUnique(artists) && TownsUnique(towns) && VenuesUnique(venues)
    && PromotersUnique(promoters) && GigsUnique(gigs)
    && GigsRefer(gigs, artists.Keys, venues.Keys, promoters.Keys)
    && VenuesRefer(venues, towns.Keys)
  }

  /** Adding a gig that refers to stored rows and takes no other gig's
      slot, under the counter, keeps the tables consistent. */
  lemma GigAdded(t: Tables, g: Gig)
    requires Consistent(t)
    requires g.artist in t.artists && g.venue in t.venues
    requires g.promoter.Some? ==> g.promoter.value in t.promoters
    requires forall x :: x in t.gigs ==> !SameSlot(t.gigs[x], g)
    ensures Consistent(t.(gigs := t.gigs[t.nextId := g], nextId := t.nextId + 1))
  {
    var t1 := t.(gigs := t.gigs[t.nextId := g], nextId := t.nextId + 1);
    assert KeysBelow(t1);
    GigsInsert(t.gigs, t.nextId, g, t.artists.Keys, t.venues.Keys, t.promoters.Keys);
    assert LinksResolve(t.links, t1.gigs.Keys, t.artists.Keys, t.venues.Keys, t.towns.Keys, t.promoters.Keys);
  }

  /** A gig under a new key that takes no other gig's slot keeps the gig
      invariants. */
  lemma GigsInsert(gigs: map<Id, Gig>, id: Id, g: Gig,
                   artists: set<Id>, venues: set<Id>, promoters: set<Id>)
    requires id !in gigs && GigsUnique(gigs)
    requires GigsRefer(gigs, artists, venues, promoters)
    requires g.artist in artists && g.venue in venues
    requires g.promoter.Some? ==> g.promoter.value in promoters
    requires forall x :: x in gigs ==> !SameSlot(gigs[x], g)
    ensures GigsUnique(gigs[id := g]) && GigsRefer(gigs[id := g], artists, venues, promoters)
  {
  }

  /** Rewriting a stored gig so that it still refers to stored rows and
      takes no other gig's slot keeps the tables consistent. */
  lemma GigReplaced(t: Tables, id: Id, g: Gig)
    requires Consistent(t) && id in t.gigs
    requires g.artist in t.artists && g.venue in t.venues
    requires g.promoter.Some? ==> g.promoter.value in t.promoters
    requires forall x :: x in t.gigs && x != id ==> !SameSlot(t.gigs[x], g)
    ensures Consistent(t.(gigs := t.gigs[id := g]))
  {
    GigsReplace(t.gigs, id, g, t.artists.Keys, t.venues.Keys, t.promoters.Keys);
    assert t.gigs[id := g].Keys == t.gigs.Keys;
    assert KeysBelow(t.(gigs := t.gigs[id := g]));
  }

  class Database {
    var identifiers: map<Id, ImportIdentifier>
    var links: set<Link>
    var artists: map<Id, Artist>
    var venues: map<Id, Venue>
    var towns: map<Id, Town>
    var promoters: map<Id, Promoter>
    var gigs: map<Id, Gig>
    var nextId: Id

    /** The tables satisfy the schema's constraints. */
    ghost predicate Valid()
      reads this
    {
      Consistent(Contents())
    }

    function Contents(): Tables
      reads this
    {
      Tables(identifiers, links, nextId, artists, venues, towns, promoters, gigs)
    }

    constructor ()
      ensures Valid()
      ensures identifiers == map[] && links == {} && artists == map[] && venues == map[]
      ensures towns == map[] && promoters == map[] && gigs == map[] && nextId == 0
    {
      identifiers, links := map[], {};
      artists, venues, towns, promoters, gigs := map[], map[], map[], map[], map[];
      nextId := 0;
    }

    /** The keys of the table that holds entities of kind `k`. */
    function EntityKeys(k: Kind): set<Id>
      reads this
    {
      match k
      case GigKind => gigs.Keys
      case ArtistKind => artists.Keys
      case VenueKind => venues.Keys
      case TownKind => towns.Keys
      case PromoterKind => promoters.Keys
    }

    /** The alias with this tag and kind exists. */
    ghost predicate HasIdentifier(tag: string, kind: Kind)
      reads this
    {
      exists i :: i in identifiers && identifiers[i] == ImportIdentifier(tag, kind)
    }

    /** The alias (tag, kind) is linked to entity `e`. */
    ghost predicate Linked(kind: Kind, tag: string, e: Id)
      reads this
    {
      LinkedIn(identifiers, links, kind, tag, e)
    }

    /** A link to the alias found under its tag is the one `Linked` means. */
    lemma LinkedAt(kind: Kind, tag: string, i: Id, e: Id)
      requires Valid() && i in identifiers && identifiers[i] == ImportIdentifier(tag, kind)
      requires Linked(kind, tag, e)
      ensures Link(kind, e, i) in links
    {
      var j :| j in identifiers && identifiers[j] == ImportIdentifier(tag, kind)
               && Link(kind, e, j) in links;
      assert identifiers[i] == identifiers[j];
    }

    /** An alias resolves to one entity at most. */
    lemma LinkedUnique(kind: Kind, tag: string, e1: Id, e2: Id)
      requires Valid() && Linked(kind, tag, e1) && Linked(kind, tag, e2)
      ensures e1 == e2
    {
      var i1 :| i1 in identifiers && identifiers[i1] == ImportIdentifier(tag, kind)
                && Link(kind, e1, i1) in links;
      var i2 :| i2 in identifiers && identifiers[i2] == ImportIdentifier(tag, kind)
                && Link(kind, e2, i2) in links;
      assert i1 == i2;
      assert Link(kind, e1, i1).ident == Link(kind, e2, i2).ident;
    }

    /** `ImportIdentifier.objects.get_or_create(identifier=tag, type=kind)`. */
    method GetOrCreateIdentifier(tag: string, kind: Kind) returns (i: Id)
      requires Valid()
      modifies this`identifiers, this`nextId
      ensures Valid()
      ensures i in identifiers && identifiers[i] == ImportIdentifier(tag, kind)
      ensures Extends(old(identifiers), links, identifiers, links)
      ensures old(HasIdentifier(tag, kind)) ==>
                identifiers == old(identifiers) && nextId == old(nextId)
      ensures !old(HasIdentifier(tag, kind)) ==>
                && i == old(nextId) && nextId == old(nextId) + 1
                && identifiers == old(identifiers)[i := ImportIdentifier(tag, kind)]
    {
      var wanted := ImportIdentifier(tag, kind);
      if j :| j in identifiers && identifiers[j] == wanted {
        i := j;
      } else {
        i := nextId;
        identifiers := identifiers[i := wanted];
        nextId := nextId + 1;
      }
    }

    /** `identifier.<kind>_set.all()[0]`: the entity the alias is linked
        to, if any. */
    method LinkedEntity(kind: Kind, i: Id) returns (e: Option<Id>)
      requires Valid()
      ensures e.Some? ==> Link(kind, e.value, i) in links
      ensures e.None? ==> forall x :: Link(kind, x, i) !in links
    {
      if l :| l in links && l.kind == kind && l.ident == i {
        e := Some(l.entity);
      } else {
        e := None;
        forall x ensures Link(kind, x, i) !in links {
          var l := Link(kind, x, i);
          assert l.kind == kind && l.ident == i;
        }
      }
    }

    /** `entity.import_identifiers.add(identifier)`. */
    method AddLink(kind: Kind, e: Id, i: Id)
      requires Valid()
      requires i in identifiers && identifiers[i].kind == kind && e in EntityKeys(kind)
      requires forall x :: Link(kind, x, i) in links ==> x == e
      modifies this`links
      ensures Valid()
      ensures links == old(links) + {Link(kind, e, i)}
    {
      var added := Link(kind, e, i);
      LinksExtend(links, added, identifiers);
      assert LinksResolve(links + {added}, gigs.Keys, artists.Keys, venues.Keys, towns.Keys, promoters.Keys) by {
        assert EntityKeys(added.kind) == EntityKeys(kind);
      }
      links := links + {added};
    }

    /** `Artist.objects.create(name=name, slug=slug)`. */
    method CreateArtist(name: string, slug: string) returns (r: Result<Id, IntegrityError>)
      requires Valid()
      modifies this`artists, this`nextId
      ensures Valid()
      ensures r.Err? <==> old(exists a :: a in artists && (artists[a].name == name || artists[a].slug == slug))
      ensures r.Ok? ==> && r.value == old(nextId) && nextId == old(nextId) + 1
                        && artists == old(artists)[r.value := Artist(name, slug, true, 0)]
      ensures r.Err? ==> artists == old(artists) && nextId == old(nextId)
    {
      if a :| a in artists && artists[a].name == name {
        r := Err(DuplicateName(ArtistKind, name));
      } else if a :| a in artists && artists[a].slug == slug {
        r := Err(DuplicateSlug(ArtistKind, slug));
      } else {
        r := Ok(nextId);
        artists := artists[nextId := Artist(name, slug, true, 0)];
        nextId := nextId + 1;
      }
    }

    /** `Town.objects.create(name=name, slug=slug)`. */
    method CreateTown(name: string, slug: string) returns (r: Result<Id, IntegrityError>)
      requires Valid()
      modifies this`towns, this`nextId
      ensures Valid()
      ensures r.Err? <==> old(exists t :: t in towns && (towns[t].name == name || towns[t].slug == slug))
      ensures r.Ok? ==> && r.value == old(nextId) && nextId == old(nextId) + 1
                        && towns == old(towns)[r.value := Town(name, slug, true, 0)]
      ensures r.Err? ==> towns == old(towns) && nextId == old(nextId)
    {
      if t :| t in towns && towns[t].name == name {
        r := Err(DuplicateName(TownKind, name));
      } else if t :| t in towns && towns[t].slug == slug {
        r := Err(DuplicateSlug(TownKind, slug));
      } else {
        r := Ok(nextId);
        towns := towns[nextId := Town(name, slug, true, 0)];
        nextId := nextId + 1;
      }
    }

    /** `Venue.objects.create(name=name, slug=slug, town=town)`. */
    method CreateVenue(name: string, slug: string, town: Id) returns (r: Result<Id, IntegrityError>)
      requires Valid() && town in towns
      modifies this`venues, this`nextId
      ensures Valid()
      ensures r.Err? <==> old(exists v :: v in venues && venues[v].slug == slug)
      ensures r.Ok? ==> && r.value == old(nextId) && nextId == old(nextId) + 1
                        && venues == old(venues)[r.value := Venue(name, slug, town, true, 0)]
      ensures r.Err? ==> venues == old(venues) && nextId == old(nextId)
    {
      if v :| v in venues && venues[v].slug == slug {
        r := Err(DuplicateSlug(VenueKind, slug));
      } else {
        r := Ok(nextId);
        venues := venues[nextId := Venue(name, slug, town, true, 0)];
        nextId := nextId + 1;
      }
    }

    /** `Promoter.objects.create(name=name, slug=slug)`. */
    method CreatePromoter(name: string, slug: string) returns (r: Result<Id, IntegrityError>)
      requires Valid()
      modifies this`promoters, this`nextId
      ensures Valid()
      ensures r.Err? <==> old(exists p :: p in promoters && (promoters[p].name == name || promoters[p].slug == slug))
      ensures r.Ok? ==> && r.value == old(nextId) && nextId == old(nextId) + 1
                        && promoters == old(promoters)[r.value := Promoter(name, slug, true, 0)]
      ensures r.Err? ==> promoters == old(promoters) && nextId == old(nextId)
    {
      if p :| p in promoters && promoters[p].name == name {
        r := Err(DuplicateName(PromoterKind, name));
      } else if p :| p in promoters && promoters[p].slug == slug {
        r := Err(DuplicateSlug(PromoterKind, slug));
      } else {
        r := Ok(nextId);
        promoters := promoters[nextId := Promoter(name, slug, true, 0)];
        nextId := nextId + 1;
      }
    }

    /** `Town.objects.get_or_create(name=name)`: the town so named, or a
        new one with an empty slug. */
    method GetOrCreateTownNamed(name: string) returns (r: Result<Id, IntegrityError>)
      requires Valid()
      modifies this`towns, this`nextId
      ensures Valid()
      ensures r.Ok? ==> r.value in towns && towns[r.value].name == name
      ensures old(exists t :: t in towns && towns[t].name == name) ==>
                r.Ok? && towns == old(towns) && nextId == old(nextId)
      ensures !old(exists t :: t in towns && towns[t].name == name) ==>
                && (r.Err? <==> old(exists t :: t in towns && towns[t].slug == ""))
                && (r.Ok? ==> r.value == old(nextId) && towns == old(towns)[r.value := Town(name, "", true, 0)])
      ensures r.Err? ==> towns == old(towns) && nextId == old(nextId)
    {
      if t :| t in towns && towns[t].name == name {
        r := Ok(t);
      } else {
        r := CreateTown(name, "");
      }
    }

    /** `Gig.objects.create(...)`. */
    method CreateGig(g: Gig) returns (r: Result<Id, IntegrityError>)
      requires Valid()
      requires g.artist in artists && g.venue in venues
      requires g.promoter.Some? ==> g.promoter.value in promoters
      modifies this`gigs, this`nextId
      ensures Valid()
      ensures r.Err? <==> old(exists x :: x in gigs && SameSlot(gigs[x], g))
      ensures r.Ok? ==> && r.value == old(nextId) && nextId == old(nextId) + 1
                        && gigs == old(gigs)[r.value := g]
      ensures r.Err? ==> gigs == old(gigs) && nextId == old(nextId)
    {
      ghost var t := Contents();
      if x :| x in gigs && SameSlot(gigs[x], g) {
        r := Err(DuplicateGig(g.artist, g.venue, g.date));
      } else {
        GigAdded(t, g);
        r := Ok(nextId);
        gigs := gigs[nextId := g];
        nextId := nextId + 1;
        assert Contents() == t.(gigs := t.gigs[t.nextId := g], nextId := t.nextId + 1);
      }
    }

    /** `gig.save()` for an existing row whose fields now read `g`. */
    method SaveGig(id: Id, g: Gig) returns (r: Result<(), IntegrityError>)
      requires Valid() && id in gigs
      requires g.artist in artists && g.venue in venues
      requires g.promoter.Some? ==> g.promoter.value in promoters
      modifies this`gigs
      ensures Valid()
      ensures r.Err? <==> old(exists x :: x in gigs && x != id && SameSlot(gigs[x], g))
      ensures r.Ok? ==> gigs == old(gigs)[id := g]
      ensures r.Err? ==> gigs == old(gigs)
    {
      if x :| x in gigs && x != id && SameSlot(gigs[x], g) {
        r := Err(DuplicateGig(g.artist, g.venue, g.date));
      } else {
        ghost var t := Contents();
        GigReplaced(t, id, g);
        r := Ok(());
        gigs := gigs[id := g];
        assert Contents() == t.(gigs := t.gigs[id := g]);
      }
    }

    // -------------------------------------------------------------------
    // save(update_number_of_upcoming_gigs=...) and the post-save signal

    /** `artist.save(update_number_of_upcoming_gigs=update)` followed by
        the `ensure_gig_slug_matches_artist_slug` receiver (the artist
        already exists, so `created` is false). */
    method SaveArtist(a: Id, update: bool, today: Date)
      requires Valid() && a in artists
      modifies this`artists, this`gigs
      ensures Valid()
      ensures artists.Keys == old(artists.Keys)
      ensures update ==> artists == old(artists)[a := old(artists[a]).(
                upcomingGigs := |UpcomingOfArtist(old(gigs), a, today)|)]
      ensures !update ==> artists == old(artists)
      ensures gigs == SlugsSynced(old(gigs), a, artists[a].slug, today)
      ensures SameSchedule(old(gigs), gigs)
    {
      if update {
        var upcoming := UpcomingOfArtist(gigs, a, today);
        var count := if upcoming == {} then 0 else |upcoming|;
        artists := artists[a := artists[a].(upcomingGigs := count)];
      }
      SyncGigSlugs(a, today);
    }

    /** The body of `ensure_gig_slug_matches_artist_slug`: every upcoming
        gig of artist `a` whose slug differs takes the artist's slug. */
    method SyncGigSlugs(a: Id, today: Date)
      requires Valid() && a in artists
      modifies this`gigs
      ensures Valid()
      ensures gigs == SlugsSynced(old(gigs), a, artists[a].slug, today)
      ensures SameSchedule(old(gigs), gigs)
    {
      ghost var start := gigs;
      var upcoming := UpcomingOfArtist(gigs, a, today);
      Retag(upcoming, artists[a].slug);
      WithSlugSchedule(start, upcoming, artists[a].slug);
      ScheduleKeepsGigInvariants(start, gigs, artists.Keys, venues.Keys, promoters.Keys);
    }

    /** The signal's loop: each gig in `ids` whose slug differs is given
        `slug` and saved. */
    method Retag(ids: set<Id>, slug: string)
      requires ids <= gigs.Keys
      modifies this`gigs
      ensures gigs == WithSlug(old(gigs), ids, slug)
    {
      var todo := ids;
      ghost var start := gigs;
      while todo != {}
        invariant todo <= ids
        invariant gigs == WithSlug(start, ids - todo, slug)
        decreases todo
      {
        var g :| g in todo;
        WithSlugStep(start, ids - todo, g, slug);
        if gigs[g].slug != slug {
          gigs := gigs[g := gigs[g].(slug := slug)];
        } else {
          assert gigs == gigs[g := gigs[g].(slug := slug)];
        }
        assert ids - (todo - {g}) == (ids - todo) + {g};
        todo := todo - {g};
      }
    }

    /** `venue.save(update_number_of_upcoming_gigs=update)`. */
    method SaveVenue(v: Id, update: bool, today: Date)
      requires Valid() && v in venues
      modifies this`venues
      ensures Valid()
      ensures update ==> venues == old(venues)[v := old(venues[v]).(
                upcomingGigs := |UpcomingAtVenue(gigs, v, today)|)]
      ensures !update ==> venues == old(venues)
    {
      if update {
        var upcoming := UpcomingAtVenue(gigs, v, today);
        var count := if upcoming == {} then 0 else |upcoming|;
        venues := venues[v := venues[v].(upcomingGigs := count)];
      }
    }

    /** `town.save(update_number_of_upcoming_gigs=update)`. */
    method SaveTown(t: Id, update: bool, today: Date)
      requires Valid() && t in towns
      modifies this`towns
      ensures Valid()
      ensures update ==> towns == old(towns)[t := old(towns[t]).(
                upcomingGigs := |UpcomingInTown(gigs, venues, t, today)|)]
      ensures !update ==> towns == old(towns)
    {
      if update {
        var upcoming := UpcomingInTown(gigs, venues, t, today);
        var count := if upcoming == {} then 0 else |upcoming|;
        towns := towns[t := towns[t].(upcomingGigs := count)];
      }
    }

    /** `promoter.save(update_number_of_upcoming_gigs=update)`. */
    method SavePromoter(p: Id, update: bool, today: Date)
      requires Valid() && p in promoters
      modifies this`promoters
      ensures Valid()
      ensures update ==> promoters == old(promoters)[p := old(promoters[p]).(
                upcomingGigs := |UpcomingForPromoter(gigs, p, today)|)]
      ensures !update ==> promoters == old(promoters)
    {
      if update {
        var upcoming := UpcomingForPromoter(gigs, p, today);
        var count := if upcoming == {} then 0 else |upcoming|;
        promoters := promoters[p := promoters[p].(upcomingGigs := count)];
      }
    }
  }
}
