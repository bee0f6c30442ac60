# Louder World: the event ingestion pipeline and catalog, in Dafny

This project models the core of Louder World, a Sydney events site. Each run of its
scraping job does four things:

1. It fetches two public listing pages, Timeout Sydney and Eventbrite Sydney.
2. Each page's adapter turns the listing cards into draft events.
3. When fewer than three drafts come back, it tops them up with a fixed set of
   five sample events.
4. It reconciles the drafts against the stored Event catalog. A draft is matched
   to a stored record by the identity key (originalUrl, title). A match refreshes
   the record, and no match creates one. Afterwards the job sweeps every past
   record that is not `imported` to `inactive`.

The events router serves the catalog in four ways:

- a public listing: active, upcoming events of a city, by date, with a limit;
- a signed-in dashboard with optional city, keyword and date-range filters;
- a lookup by identifier;
- an import action that marks a record `imported` with the user and notes.

Modules, one per concern:

- `Wrappers`: `Option` and `Result`.
- `Collections`: the store's primitives. These are first-match lookup, filter,
  concatenation, and a sort by key with a limit.
- `Text`: the string tests the source uses:
  - `startsWith`;
  - `includes`;
  - a case-insensitive substring test, which stands for the `new RegExp(s, 'i')`
    filter.
- `EventSchema`: the Event record and what `Event.create` does with a document.
  This covers the status enumeration, the required fields and the defaults.
- `Adapters`: the two adapters' per-card rules and their `.each` loops, plus the
  sample set.
- `Orchestrator`: the source loop and the fallback threshold.
- `Reconcile`: the reconcile loop and the sweep, as functions over the catalog.
  It also holds the proof that reconciliation is idempotent.
- `EventRoutes`: the router's listing, dashboard, lookup and import.
- `EventStore`: class `Catalog`, the Event collection changed in place. Its
  methods carry out the reconcile loop, the sweep, the import and a whole
  scraping run, each proved equal to the functional model.

Representation choices:

- Times are integer milliseconds, and one day is 86400000.
- `_id` is a natural number equal to the record's position in the catalog.
  Records are only ever appended, so "identifiers are positions" is an invariant
  of the catalog (`Reconcile.WellFormed`). The same invariant says that identity
  keys are unique and that every stored record has the title and originalUrl the
  schema requires.
- `new Date(text)` is a parameter `parse: string -> Option<int>`, where `None`
  means an Invalid Date.
- Each clock reading is a parameter:
  - the `now` of each adapter call, carried in `Orchestrator.FetchResult`;
  - the base time of the sample set;
  - the time of the sweep;
  - the time of an import.
- Each source's HTTP fetch is an input: the cards its page yielded, or a failure.
- The signed-in user is `Option<UserId>`.

## Model

| member | source | states |
|---|---|---|
| EventSchema.Create | server/models/Event.js:3-19 | Creation succeeds iff title and originalUrl are non-empty. Status defaults to `new`, city to "Sydney, Australia" and lastScrapedAt to the creation time. The import fields start absent, and every other field is copied from the document. |
| EventSchema.CreateIgnoresClock | server/models/Event.js:14 | The creation clock only feeds the lastScrapedAt default. |
| Adapters.ResolveTimeoutLink | server/jobs/scrape.js:29 | A link starting with "http" is kept. Anything else, a missing link included, is appended to `https://www.timeout.com`. The result always starts with "http". |
| Adapters.TimeoutCard | server/jobs/scrape.js:27-44 | A card yields a draft iff its title has at least 3 characters and its resolved URL contains "sydney". The draft's date is `now + (i+1)` days. The description, image and URL defaults are the source's. |
| Adapters.EventbriteDate | server/jobs/scrape.js:66-71 | With no date text the date is exactly `now`. Text that parses gives the parsed time. Text that does not parse gives `now + (i+1)` days. |
| Adapters.EventbriteCard | server/jobs/scrape.js:64-85 | A card yields a draft iff its title has at least 3 characters. The venue, description, image and URL defaults are the source's (the URL defaults to the listing page). |
| Adapters.EachCard | server/jobs/scrape.js:20-45 | The `.each` loop keeps, in order, exactly the drafts the card rule emits. Each card's position counts the skipped cards too. |
| Adapters.EachCardDatesIncrease | server/jobs/scrape.js:20-45 | When every emitted draft carries its card's synthetic date, the loop's drafts lie between `now + 1` day and `now + n` days for n cards, and their dates strictly increase. |
| Adapters.TimeoutDrafts | server/jobs/scrape.js:20-45 | The Timeout adapter's drafts: the `.each` loop with the Timeout card rule. It is a definition with no ensures of its own. Its properties are stated by `TimeoutDatesIncrease` and `TimeoutDraftsAreKept`, and the loop that computes it by `ScrapeTimeout`. |
| Adapters.EventbriteDrafts | server/jobs/scrape.js:55-86 | The Eventbrite adapter's drafts: the `.each` loop with the Eventbrite card rule. It is a definition with no ensures of its own. Its properties are stated by `EventbriteDraftsAreKept`, and the loop that computes it by `ScrapeEventbrite`. |
| Adapters.TimeoutDatesIncrease | server/jobs/scrape.js:20-34 | The Timeout drafts' dates lie between `now + 1` day and `now + n` days for n cards, and they strictly increase along the result. |
| Adapters.TimeoutDraftsAreKept | server/jobs/scrape.js:27-30 | Every Timeout draft has a usable title and an http URL containing "sydney". |
| Adapters.EventbriteDraftsAreKept | server/jobs/scrape.js:64 | Every Eventbrite draft has a usable title and a non-empty URL. |
| Adapters.ScrapeTimeout | server/jobs/scrape.js:14-48 | The push loop returns exactly the Timeout drafts of the cards. |
| Adapters.ScrapeEventbrite | server/jobs/scrape.js:50-89 | The push loop returns exactly the Eventbrite drafts of the cards. |
| Adapters.SampleEvents | server/jobs/scrape.js:92-161 | There are exactly five sample drafts. Each is usable, is from "Sample Source" in "Sydney, Australia", is dated 1 to 7 days after the base time and was scraped at the base time. |
| Orchestrator.AdapterFor | server/jobs/scrape.js:174-175 | A name including "Timeout" selects the Timeout adapter. Otherwise a name including "Eventbrite" selects the Eventbrite adapter, and any other name selects none. It is a definition with no ensures of its own; the two lemmas below state what it gives for the configured sources. |
| Orchestrator.TimeoutSourceSelectsTimeout | server/jobs/scrape.js:174 | The first configured source selects the Timeout adapter. |
| Orchestrator.EventbriteSourceSelectsEventbrite | server/jobs/scrape.js:175 | The second configured source selects the Eventbrite adapter, because its name does not include "Timeout". |
| Orchestrator.SourceDrafts | server/jobs/scrape.js:167-180 | A failed fetch, or a source whose name selects no adapter, contributes no draft. |
| Orchestrator.Aggregate | server/jobs/scrape.js:165-180 | The drafts of all sources, in source order. It is a definition with no ensures of its own. Its contract is stated by `FailingSourceIsIsolated` (a failing source is skipped and later sources still count) and `AggregateIsUsable` (every draft is usable). |
| Orchestrator.FailingSourceIsIsolated | server/jobs/scrape.js:167-180 | A failing source contributes nothing and does not stop later sources. The aggregate is the drafts of the sources before it followed by those after it. |
| Orchestrator.WithFallback | server/jobs/scrape.js:182-186 | Fewer than 3 live drafts are followed by exactly the 5 sample drafts. Otherwise the live drafts are unchanged. Either way there are at least 3 drafts, and the live drafts form a prefix. |
| Orchestrator.AggregateIsUsable | server/jobs/scrape.js:167-180 | Every aggregated draft has a usable title and a non-empty URL. |
| Orchestrator.RunDrafts | server/jobs/scrape.js:165-186 | Every draft of a run has a usable title and a non-empty URL, so `Event.create` accepts it. |
| Orchestrator.CollectDrafts | server/jobs/scrape.js:165-186 | The source loop and the top-up produce exactly the run's drafts. |
| Reconcile.KeyIndex | server/jobs/scrape.js:189 | `findOne` returns the first record with the draft's key, or none when no record has it. |
| Reconcile.Changed | server/jobs/scrape.js:191-193 | The tracked-field test: title, dateTime or venueName differs. It is a predicate with no ensures; `Refresh` and `Upsert` state how it decides the `updated` flag. |
| Reconcile.Overwrite | server/jobs/scrape.js:194-200 | The seven fields a later sighting copies from the draft. It is a definition with no ensures; `Refresh`, `Upsert` and `RefreshAllClosedForm` state what it leaves. |
| Reconcile.Refresh | server/jobs/scrape.js:191-201 | The overwritten fields come from the draft. An `imported` record stays `imported` and no other record becomes `imported`. The status changes only to `updated`, and only when a tracked field differs. |
| Reconcile.NewRecord | server/jobs/scrape.js:203-204 | A first sighting is stored with status `new`, the draft's key and the draft's fields, with no import fields. |
| Reconcile.Upsert | server/jobs/scrape.js:188-205 | Without a match, the new record is appended with the next identifier. With a match, only that record changes. It becomes `updated` iff dateTime or venueName differed and it was not `imported`. The title test can never fire, because the title is part of the key. Keys stay unique, identifiers stay positional and every record keeps its required fields. |
| Reconcile.ApplyAll | server/jobs/scrape.js:188-206 | The reconcile loop over the drafts, in order. Its own ensures says only that the catalog never shrinks. Its contract is stated by `ApplyAllKeepsRecords`, `ApplyAllKeepsKeysUnique` and `ReconcileIsIdempotent`, and the in-place loop by `EventStore.Catalog.ReconcileAll`. |
| Reconcile.ApplyAllKeepsRecords | server/jobs/scrape.js:188-206 | The reconcile loop removes no record and re-keys none. Each record's status stays or becomes `updated`, and `imported` is kept. |
| Reconcile.ApplyAllKeepsKeysUnique | server/jobs/scrape.js:188-206 | Keys stay unique, even when one run has duplicate drafts, identifiers stay positional and every record keeps its required fields. Every draft's key ends with a record. |
| Reconcile.Swept | server/jobs/scrape.js:209-211 | The sweep's filter and update on one record: dated before `now` and not `imported` becomes `inactive`, anything else is unchanged. It is a definition with no ensures; `SweepAll` states it for the whole catalog. |
| Reconcile.SweepAll | server/jobs/scrape.js:209-212 | Every past record that is not `imported` becomes `inactive`. Every other record is unchanged, and none is removed. |
| Reconcile.SweepKeepsWellFormed | server/jobs/scrape.js:209-212 | The sweep keeps keys unique, identifiers positional and the required fields present. |
| Reconcile.SweepIsIdempotent | server/jobs/scrape.js:209-212 | A second sweep at the same time changes nothing. |
| Reconcile.RunStatusTransitions | server/jobs/scrape.js:188-212 | Across a run a stored record keeps its identifier and key. Its status stays, becomes `updated` or becomes `inactive`, and `imported` is kept. |
| Reconcile.RefreshAllClosedForm | server/jobs/scrape.js:191-201 | After several sightings of a key, the overwritten fields come from the last one. The record is `updated` iff some sighting drifted from the stored tracked fields, except that an `imported` record stays `imported`. |
| Reconcile.ApplyAllSettles | server/jobs/scrape.js:188-206 | After one application, each record is a fixed point of its own key's sightings. |
| Reconcile.ApplyAllPointwise | server/jobs/scrape.js:188-206 | When every draft's key is stored, the loop creates nothing. Each record ends as its own sightings leave it. |
| Reconcile.ReconcileIsIdempotent | server/jobs/scrape.js:188-206 | Applying the same drafts a second time, lastScrapedAt included, changes nothing. |
| EventRoutes.FindById | server/routes/events.js:58-59 | The lookup returns a record with the identifier, or NotFound when no record has it. |
| EventRoutes.FindByIdIsPositional | server/routes/events.js:58-59 | In a well-formed catalog the lookup succeeds iff the identifier is below the catalog's size, and it returns the record at that position. |
| EventRoutes.NotesOrEmpty | server/routes/events.js:77 | Absent notes are stored as "". |
| EventRoutes.MarkImported | server/routes/events.js:73-77 | The import sets status `imported`, importedAt, importedBy and the notes, and leaves every other field as it was. |
| EventRoutes.ImportEvent | server/routes/events.js:67-86 | With no user the result is Unauthorized and the catalog is unchanged. With an unknown identifier the result is NotFound and the catalog is unchanged. Otherwise only that record changes, and the response is the updated record. |
| EventRoutes.ImportKeepsWellFormed | server/routes/events.js:71-80 | An import keeps keys unique, identifiers positional and the required fields present. |
| EventRoutes.ImportIsSticky | server/routes/events.js:74 | An imported record stays `imported` through any later reconciliation and sweep. |
| EventRoutes.LifecycleScenario | server/jobs/scrape.js:188-205 | For any three drafts of one key: the first sighting is `new`. A changed date gives the same single record, `updated`. Import with notes gives `imported`. A later sighting refreshes the date and it stays `imported`. |
| EventRoutes.SortByDate | server/routes/events.js:18 | The result is ordered by date ascending and is a permutation of the input. |
| EventRoutes.CityOrDefault | server/routes/events.js:10 | A missing or empty city means "Sydney, Australia". |
| EventRoutes.EffectiveLimit | server/routes/events.js:11 | A missing, non-numeric or zero limit means 50. A negative limit is taken by its magnitude. |
| EventRoutes.Listed | server/routes/events.js:13-16 | The listing filter: the city matches case-insensitively, the status is not `inactive` and the date is not before `now`. It is a predicate with no ensures; `ListingIsEarliestListed` states what it admits. |
| EventRoutes.Listing | server/routes/events.js:10-20 | GET / at time `now`: the listed records, ordered by date, capped at the limit. It has no ensures of its own. Its contract is stated by `ListingIsEarliestListed` and `ListingKeepsEveryListed`. |
| EventRoutes.ListingIsEarliestListed | server/routes/events.js:10-20 | The listing holds only catalog records that match the city, are not `inactive` and have not started. No record appears more often than in the catalog. The records are ordered by date and there are at most `limit` of them. A matching record that is left out is no earlier than any record shown, and it is left out only when the limit is reached. |
| EventRoutes.ListingKeepsEveryListed | server/routes/events.js:13-19 | When every record matches and the limit allows, the listing is a permutation of the catalog. |
| EventRoutes.KeywordMatches | server/routes/events.js:40-45 | The keyword `$or`: a case-insensitive match in the title, the venue name or the description. It is a predicate with no ensures; `BuildDashboardQuery` and `Dashboard` state where it applies. |
| EventRoutes.QueryMatches | server/routes/events.js:37-45 | A record meets every constraint the query holds. It is a predicate with no ensures; `BuildDashboardQuery` proves it equivalent to the parameters' requests, and `QueryResults` selects by it. |
| EventRoutes.BuildDashboardQuery | server/routes/events.js:34-46 | The query gets a constraint only for each supplied parameter. A record matches iff it meets each supplied parameter: the city, `dateTime >= from`, `dateTime <= to`, and the keyword in title, venue or description. An unreadable date fails the query. |
| EventRoutes.QueryResults | server/routes/events.js:48 | The results are exactly the catalog records that match, ordered by date. |
| EventRoutes.Dashboard | server/routes/events.js:29-53 | With no user the result is Unauthorized. Otherwise the dashboard fails iff a supplied date is unreadable. Its results are exactly the records meeting the parameters, ordered by date. |
| EventRoutes.EmptyQueryReturnsAll | server/routes/events.js:35-48 | With no parameter the dashboard returns a permutation of the whole catalog. |
| EventStore.Catalog.ReconcileOne | server/jobs/scrape.js:189-205 | On one draft, the in-place update of the collection equals `Upsert`, and `Valid` is kept. |
| EventStore.Catalog.ReconcileAll | server/jobs/scrape.js:188-206 | The in-place loop over the drafts equals `ApplyAll`. |
| EventStore.Catalog.Sweep | server/jobs/scrape.js:209-212 | The in-place sweep equals `SweepAll`. |
| EventStore.Catalog.Import | server/routes/events.js:67-86 | The in-place import returns the response of `ImportEvent` and leaves its catalog. |
| EventStore.Catalog.RunScraper | server/jobs/scrape.js:163-214 | A run leaves the catalog swept after applying the run's drafts, and returns the number of drafts processed. |

## Left out

- HTTP fetching (axios, the client identity header, the 10-second timeout) is an
  input: each source's outcome is its cards or a failure.
- HTML parsing with cheerio selectors is an input: the modelled card fields are
  those the selectors extract, with the text fields already trimmed.
- `new Date(text)` is the parameter `parse`. `isNaN(getTime())` is `parse`
  returning `None`.
- Each clock reading is a parameter. Each adapter call reads the clock once, so
  every card's `new Date()` for lastScrapedAt is that reading, although the
  source reads the clock again per card.
- `mongoose.connect` and the connection itself, the indexes, and the
  `timestamps` plugin (createdAt/updatedAt) are not modelled.
- Deletion is not modelled because the code never deletes.
- `new RegExp(s, 'i')` is a case-insensitive substring test: a pattern holding
  regular-expression metacharacters is read literally. Case folding is ASCII only.
- The 500 responses are not modelled:
  - an identifier that is not a valid ObjectId;
  - an invalid pattern;
  - a lost store.

  The exception is an unreadable dashboard date, which is the `InvalidDate` error.
  In the source it surfaces at `find` as a cast failure, and the model raises it
  while building the query.
- Reconcile.Upsert: requires the draft to have a title and a URL. Otherwise
  `Event.create` would throw and abort the run. The model proves that every
  draft of a run meets this (`Orchestrator.RunDrafts`).
- String length is counted in characters, not UTF-16 code units.
- EventRoutes.SortByDate: specifies only ascending order and permutation. The
  model breaks ties with a stable insertion sort, whereas the store's order for
  equal dates is unspecified.
- The order of listed records left out by the limit is not modelled beyond "no
  earlier than any record shown".
- Scheduling is not modelled:
  - the startup run;
  - the six-hourly cron job;
  - `POST /scrape`, whose fire-and-forget call returns before the run ends;
  - the direct-invocation entry point of scrape.js.
- Concurrency between overlapping runs is not modelled: the code has no
  run-in-progress guard and no atomic upsert, and the model, being sequential,
  has neither.
- Express routing and passport sessions are reduced to an optional user.
- A run returns its count of processed drafts, which the source only logs.
  Per-source failures are not returned, because the source only logs them.
- EventStore.Catalog.RunScraper, ReconcileOne, ReconcileAll, Sweep and
  Import describe the new state with `old(...)`, so their contracts rest on the
  functional model they are proved equal to.
