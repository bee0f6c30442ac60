/** The catalog operations of the events router (server/routes/events.js): the
    public listing, the dashboard query, the lookup by identifier and the import
    of a record by a signed-in user. */
module EventRoutes {
  import opened Wrappers
  import opened Collections
  import opened Text
  import opened EventSchema
  import opened Adapters
  import opened Reconcile

  /** The error responses: 401, 404, and the cast failure of an unparsable date. */
  datatype ApiError = Unauthorized | NotFound | InvalidDate

  // ---------------------------------------------------------------------------
  // GET /:id
  // ---------------------------------------------------------------------------

  /** Position of the record with identifier `id`. */
  function IdIndex(c: seq<Event>, id: nat): (r: Option<nat>)
    ensures r.Some? ==> r.value < |c| && c[r.value].id == id
    ensures r.None? ==> forall j :: 0 <= j < |c| ==> c[j].id != id
  {
    FirstIndex(c, (e: Event) => e.id == id)
  }

  /** `Event.findById(id)`: the record, or NotFound. */
  function FindById(c: seq<Event>, id: nat): (r: Result<Event, ApiError>)
    ensures r.Ok? ==> r.value in c && r.value.id == id
    ensures r.Err? ==> r.error == NotFound && forall e :: e in c ==> e.id != id
  {
    match IdIndex(c, id)
    case None => Err(NotFound)
    case Some(i) => Ok(c[i])
  }

  lemma IdIndexIsPositional(c: seq<Event>, id: nat)
    requires IdsArePositions(c) && id < |c|
    ensures IdIndex(c, id) == Some(id)
  {
    assert c[id].id == id;
  }

  /** In a catalog whose identifiers are positions, the lookup finds exactly the
      identifiers below the catalog's length, and finds the record at that position. */
  lemma FindByIdIsPositional(c: seq<Event>, id: nat)
    requires IdsArePositions(c)
    ensures FindById(c, id).Ok? <==> id < |c|
    ensures id < |c| ==> FindById(c, id) == Ok(c[id])
  {
    if id < |c| {
      assert c[id].id == id;
    }
  }

  // ---------------------------------------------------------------------------
  // POST /:id/import
  // ---------------------------------------------------------------------------

  /** `importNotes || ''`. */
  function NotesOrEmpty(notes: Option<string>): (r: string)
    ensures notes.None? ==> r == ""
    ensures notes.Some? ==> r == notes.value
  {
    notes.GetOr("")
  }

  /** The update document of the import: status `imported`, the time, the user
      and the notes; every other field is left as it was. */
  function MarkImported(e: Event, user: UserId, notes: Option<string>, now: int): (r: Event)
    ensures r.status == Imported && r.importedAt == Some(now) && r.importedBy == Some(user)
    ensures r.importNotes == Some(NotesOrEmpty(notes))
    ensures r.(status := e.status, importedAt := e.importedAt, importedBy := e.importedBy,
               importNotes := e.importNotes) == e
  {
    e.(status := Imported, importedAt := Some(now), importedBy := Some(user),
       importNotes := Some(NotesOrEmpty(notes)))
  }

  /** The response of an import and the catalog after it. */
  datatype ImportOutcome = ImportOutcome(response: Result<Event, ApiError>, catalog: seq<Event>)

  /** POST /:id/import by `user` (None when nobody is signed in). */
  function ImportEvent(c: seq<Event>, id: nat, user: Option<UserId>, notes: Option<string>, now: int)
    : (r: ImportOutcome)
    ensures |r.catalog| == |c|
    ensures user.None? ==> r == ImportOutcome(Err(Unauthorized), c)
    ensures user.Some? && IdIndex(c, id).None? ==> r == ImportOutcome(Err(NotFound), c)
    ensures user.Some? && IdIndex(c, id).Some? ==>
      var i := IdIndex(c, id).value;
      |r.catalog| == |c| &&
      r.catalog[i] == MarkImported(c[i], user.value, notes, now) &&
      (forall j :: 0 <= j < |c| && j != i ==> r.catalog[j] == c[j]) &&
      r.response == Ok(r.catalog[i])
  {
    if user.None? then ImportOutcome(Err(Unauthorized), c)
    else match IdIndex(c, id)
      case None => ImportOutcome(Err(NotFound), c)
      case Some(i) =>
        var e := MarkImported(c[i], user.value, notes, now);
        ImportOutcome(Ok(e), c[i := e])
  }

  /** An import keeps identity keys unique, identifiers positional and the required fields present. */
  lemma ImportKeepsWellFormed(c: seq<Event>, id: nat, user: Option<UserId>, notes: Option<string>, now: int)
    requires WellFormed(c)
    ensures WellFormed(ImportEvent(c, id, user, notes, now).catalog)
  {
    var r := ImportEvent(c, id, user, notes, now).catalog;
    assert forall i :: 0 <= i < |c| ==>
      r[i].id == c[i].id && r[i].originalUrl == c[i].originalUrl && r[i].title == c[i].title;
  }

  /** A record the import succeeded on is `imported` and stays so through every
      later reconciliation and sweep. */
  lemma ImportIsSticky(c: seq<Event>, id: nat, user: UserId, notes: Option<string>, now: int,
                       ds: seq<Draft>, sweepAt: int)
    requires AllStorable(ds) && IdsArePositions(c) && id < |c|
    ensures SweepAll(ApplyAll(ImportEvent(c, id, Some(user), notes, now).catalog, ds), sweepAt)[id].status == Imported
  {
    var c1 := ImportEvent(c, id, Some(user), notes, now).catalog;
    IdIndexIsPositional(c, id);
    RunStatusTransitions(c1, ds, sweepAt);
  }

  /** The lifecycle of one identity key: first seen it is `new`; seen again with
      another date it is the same record, `updated`, with the new date; once
      imported with notes it is `imported`, and a later sighting refreshes its
      date but leaves it `imported`. */
  lemma LifecycleScenario(d0: Draft, d1: Draft, d2: Draft, user: UserId, notes: string, now: int)
    requires Storable(d0) && Storable(d1) && Storable(d2)
    requires d1.originalUrl == d0.originalUrl && d1.title == d0.title
    requires d2.originalUrl == d0.originalUrl && d2.title == d0.title
    requires d1.dateTime != d0.dateTime
    ensures Upsert([], d0)[0].status == New
    ensures |Upsert(Upsert([], d0), d1)| == 1
    ensures Upsert(Upsert([], d0), d1)[0].status == Updated
    ensures Upsert(Upsert([], d0), d1)[0].dateTime == d1.dateTime
    ensures ImportEvent(Upsert(Upsert([], d0), d1), 0, Some(user), Some(notes), now).catalog[0].status == Imported
    ensures ImportEvent(Upsert(Upsert([], d0), d1), 0, Some(user), Some(notes), now).catalog[0].importNotes == Some(notes)
    ensures ImportEvent(Upsert(Upsert([], d0), d1), 0, Some(user), Some(notes), now).catalog[0].importedAt == Some(now)
    ensures Upsert(ImportEvent(Upsert(Upsert([], d0), d1), 0, Some(user), Some(notes), now).catalog, d2)[0].dateTime == d2.dateTime
    ensures Upsert(ImportEvent(Upsert(Upsert([], d0), d1), 0, Some(user), Some(notes), now).catalog, d2)[0].status == Imported
  {
    var c0 := Upsert([], d0);
    assert KeyIndex(c0, d1) == Some(0);
    var c1 := Upsert(c0, d1);
    assert c1[0].id == 0;
    var c2 := ImportEvent(c1, 0, Some(user), Some(notes), now).catalog;
    assert IdIndex(c1, 0) == Some(0);
    assert KeyIndex(c2, d2) == Some(0);
  }

  // ---------------------------------------------------------------------------
  // Ordering by date: `.sort({ dateTime: 1 })`
  // ---------------------------------------------------------------------------

  function DateOf(e: Event): int {
    e.dateTime
  }

  predicate SortedByDate(s: seq<Event>) {
    SortedBy(s, DateOf)
  }

  /** The records ordered by date, ascending. */
  function SortByDate(s: seq<Event>): (r: seq<Event>)
    ensures SortedByDate(r) && multiset(r) == multiset(s) && |r| == |s|
  {
    SortBy(s, DateOf)
  }

  // ---------------------------------------------------------------------------
  // GET /: the public listing
  // ---------------------------------------------------------------------------

  /** `req.query.city || 'Sydney, Australia'`. */
  function CityOrDefault(city: Option<string>): (r: string)
    ensures city.None? || city == Some("") ==> r == DefaultCity
    ensures city.Some? && city.value != "" ==> r == city.value
    ensures r != ""
  {
    if city.Some? && city.value != "" then city.value else DefaultCity
  }

  const DefaultLimit: nat := 50

  /** `parseInt(req.query.limit) || 50` handed to the store's `limit`: an
      unparsable or zero limit means 50, and the store takes a negative limit
      by its magnitude. `limit` is None when the text does not parse. */
  function EffectiveLimit(limit: Option<int>): (n: nat)
    ensures n > 0
    ensures limit.None? || limit == Some(0) ==> n == DefaultLimit
    ensures limit.Some? && limit.value > 0 ==> n == limit.value
    ensures limit.Some? && limit.value < 0 ==> n == -limit.value
  {
    if limit.None? || limit.value == 0 then DefaultLimit
    else if limit.value < 0 then -limit.value
    else limit.value
  }

  /** The listing filter: the city matches case-insensitively, the record is
      not `inactive` and it has not started before `now`. */
  predicate Listed(e: Event, city: string, now: int) {
    ContainsIgnoringCase(e.city, city) && e.status != Inactive && e.dateTime >= now
  }

  /** GET /?city=&limit= at time `now`. */
  function Listing(c: seq<Event>, city: Option<string>, limit: Option<int>, now: int): seq<Event> {
    SelectSorted(c, (e: Event) => Listed(e, CityOrDefault(city), now), DateOf, EffectiveLimit(limit))
  }

  /** The public listing holds only listed records of the catalog, each at most
      as often as in the catalog, ordered by date and capped by the limit; a
      listed record left out is no earlier than any record shown, and it is left
      out only when the limit is reached. */
  lemma ListingIsEarliestListed(c: seq<Event>, city: Option<string>, limit: Option<int>, now: int)
    ensures |Listing(c, city, limit, now)| <= EffectiveLimit(limit)
    ensures multiset(Listing(c, city, limit, now)) <= multiset(c)
    ensures forall e :: e in Listing(c, city, limit, now) ==> Listed(e, CityOrDefault(city), now)
    ensures SortedByDate(Listing(c, city, limit, now))
    ensures forall e :: e in c && Listed(e, CityOrDefault(city), now) && e !in Listing(c, city, limit, now) ==>
      |Listing(c, city, limit, now)| == EffectiveLimit(limit) &&
      forall k :: 0 <= k < |Listing(c, city, limit, now)| ==> Listing(c, city, limit, now)[k].dateTime <= e.dateTime
  {
    SelectSortedBounds(c, (e: Event) => Listed(e, CityOrDefault(city), now), DateOf, EffectiveLimit(limit));
    SelectSortedIsEarliest(c, (e: Event) => Listed(e, CityOrDefault(city), now), DateOf, EffectiveLimit(limit));
  }

  /** A catalog holding only listed records is listed in full when the limit allows. */
  lemma ListingKeepsEveryListed(c: seq<Event>, city: Option<string>, limit: Option<int>, now: int)
    requires forall e :: e in c ==> Listed(e, CityOrDefault(city), now)
    requires |c| <= EffectiveLimit(limit)
    ensures multiset(Listing(c, city, limit, now)) == multiset(c)
  {
    SelectSortedKeepsAll(c, (e: Event) => Listed(e, CityOrDefault(city), now), DateOf, EffectiveLimit(limit));
  }

  // ---------------------------------------------------------------------------
  // GET /dashboard
  // ---------------------------------------------------------------------------

  /** The query-string parameters; an empty string stands for an absent one. */
  datatype DashboardParams = DashboardParams(city: string, keyword: string, dateFrom: string, dateTo: string)

  /** The query object: one optional constraint per parameter. */
  datatype Query = Query(city: Option<string>, from: Option<int>, to: Option<int>, keyword: Option<string>)

  /** The `$or` over the three text fields. */
  predicate KeywordMatches(e: Event, keyword: string) {
    ContainsIgnoringCase(e.title, keyword) ||
    ContainsIgnoringCase(e.venueName, keyword) ||
    ContainsIgnoringCase(e.description, keyword)
  }

  /** A record satisfies every constraint the query holds. */
  predicate QueryMatches(q: Query, e: Event) {
    (q.city.None? || ContainsIgnoringCase(e.city, q.city.value)) &&
    (q.from.None? || e.dateTime >= q.from.value) &&
    (q.to.None? || e.dateTime <= q.to.value) &&
    (q.keyword.None? || KeywordMatches(e, q.keyword.value))
  }

  /** A supplied date parameter that `new Date` cannot read. */
  predicate UnreadableDate(text: string, parse: string -> Option<int>) {
    text != "" && parse(text).None?
  }

  /** What the dashboard asks of a record, parameter by parameter. */
  predicate Requested(p: DashboardParams, parse: string -> Option<int>, e: Event)
    requires !UnreadableDate(p.dateFrom, parse) && !UnreadableDate(p.dateTo, parse)
  {
    (p.city == "" || ContainsIgnoringCase(e.city, p.city)) &&
    (p.dateFrom == "" || e.dateTime >= parse(p.dateFrom).value) &&
    (p.dateTo == "" || e.dateTime <= parse(p.dateTo).value) &&
    (p.keyword == "" || KeywordMatches(e, p.keyword))
  }

  /** The query `q` built field by field from the parameters; an unreadable date fails the query. */
  method BuildDashboardQuery(p: DashboardParams, parse: string -> Option<int>) returns (r: Result<Query, ApiError>)
    ensures r.Err? <==> UnreadableDate(p.dateFrom, parse) || UnreadableDate(p.dateTo, parse)
    ensures r.Err? ==> r.error == InvalidDate
    ensures r.Ok? ==> forall e :: QueryMatches(r.value, e) <==> Requested(p, parse, e)
    ensures r.Ok? ==> (r.value.city.Some? <==> p.city != "") && (r.value.keyword.Some? <==> p.keyword != "")
    ensures r.Ok? ==> (r.value.from.Some? <==> p.dateFrom != "") && (r.value.to.Some? <==> p.dateTo != "")
  {
    var q := Query(None, None, None, None);
    if p.city != "" {
      q := q.(city := Some(p.city));
    }
    if p.dateFrom != "" {
      match parse(p.dateFrom) {
        case None => return Err(InvalidDate);
        case Some(t) => q := q.(from := Some(t));
      }
    }
    if p.dateTo != "" {
      match parse(p.dateTo) {
        case None => return Err(InvalidDate);
        case Some(t) => q := q.(to := Some(t));
      }
    }
    if p.keyword != "" {
      q := q.(keyword := Some(p.keyword));
    }
    return Ok(q);
  }

  /** The records matching a query, ordered by date. */
  function QueryResults(c: seq<Event>, q: Query): (r: seq<Event>)
    ensures SortedByDate(r) && multiset(r) <= multiset(c)
    ensures forall e :: e in r <==> e in c && QueryMatches(q, e)
  {
    var f := Filter(c, (e: Event) => QueryMatches(q, e));
    var r := SortByDate(f);
    assert forall e :: e in r <==> e in f by {
      forall e ensures e in r <==> e in f {
        assert e in r <==> e in multiset(r);
      }
    }
    r
  }

  /** GET /dashboard: sign-in is required; the matching records ordered by date. */
  method Dashboard(user: Option<UserId>, p: DashboardParams, c: seq<Event>, parse: string -> Option<int>)
    returns (r: Result<seq<Event>, ApiError>)
    ensures user.None? ==> r == Err(Unauthorized)
    ensures user.Some? ==> (r.Err? <==> UnreadableDate(p.dateFrom, parse) || UnreadableDate(p.dateTo, parse))
    ensures r.Ok? ==> SortedByDate(r.value) && multiset(r.value) <= multiset(c)
    ensures r.Ok? ==> forall e :: e in r.value <==> e in c && Requested(p, parse, e)
  {
    if user.None? {
      return Err(Unauthorized);
    }
    var q := BuildDashboardQuery(p, parse);
    match q {
      case Err(err) => r := Err(err);
      case Ok(query) => r := Ok(QueryResults(c, query));
    }
  }

  /** With no parameter the dashboard shows the whole catalog, ordered by date. */
  lemma EmptyQueryReturnsAll(c: seq<Event>)
    ensures multiset(QueryResults(c, Query(None, None, None, None))) == multiset(c)
  {
    FilterKeepsAll(c, (e: Event) => QueryMatches(Query(None, None, None, None), e));
  }
}
