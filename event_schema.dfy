/** The Event record of the catalog: its fields, the status enumeration and the
    defaults and required fields the schema applies when a record is created
    (server/models/Event.js). */
module EventSchema {
  import opened Wrappers

  /** Identifier of a user account (the `_id` of a User). */
  type UserId = nat

  /** Target city: the schema's default and the city every adapter stamps. */
  const DefaultCity: string := "Sydney, Australia"

  /** Lifecycle of a catalog record. */
  datatype Status = New | Updated | Inactive | Imported

  /** A stored Event. `id` stands for the store's `_id`; times are milliseconds
      since the epoch. */
  datatype Event = Event(
    id: nat,
    title: string,
    dateTime: int,
    venueName: string,
    venueAddress: string,
    city: string,
    description: string,
    category: seq<string>,
    imageUrl: string,
    sourceWebsite: string,
    originalUrl: string,
    lastScrapedAt: int,
    status: Status,
    importedAt: Option<int>,
    importedBy: Option<UserId>,
    importNotes: Option<string>)

  /** The document handed to `Event.create`: fields with a schema default are optional. */
  datatype EventInput = EventInput(
    title: string,
    dateTime: int,
    venueName: string,
    venueAddress: string,
    city: Option<string>,
    description: string,
    category: seq<string>,
    imageUrl: string,
    sourceWebsite: string,
    originalUrl: string,
    lastScrapedAt: Option<int>,
    status: Option<Status>)

  /** The schema's `required` validator rejected the document. */
  datatype ValidationError = MissingTitle | MissingOriginalUrl

  /** The schema's required string fields, title and originalUrl, are present:
      the validator refuses the empty string. */
  predicate RequiredPresent(title: string, originalUrl: string) {
    title != "" && originalUrl != ""
  }

  predicate HasRequiredFields(e: Event) {
    RequiredPresent(e.title, e.originalUrl)
  }

  /** `Event.create(input)` at time `now`, stored under identifier `id`. */
  function Create(input: EventInput, id: nat, now: int): (r: Result<Event, ValidationError>)
    ensures r.Ok? <==> RequiredPresent(input.title, input.originalUrl)
    ensures input.title == "" ==> r == Err(MissingTitle)
    ensures r.Ok? ==> HasRequiredFields(r.value) && r.value.id == id
    ensures r.Ok? ==> r.value.status == (if input.status.Some? then input.status.value else New)
    ensures r.Ok? ==> r.value.city == (if input.city.Some? then input.city.value else DefaultCity)
    ensures r.Ok? ==> r.value.lastScrapedAt == (if input.lastScrapedAt.Some? then input.lastScrapedAt.value else now)
    ensures r.Ok? ==> r.value.importedAt.None? && r.value.importedBy.None? && r.value.importNotes.None?
    ensures r.Ok? ==> (
      r.value.title == input.title && r.value.dateTime == input.dateTime &&
      r.value.venueName == input.venueName && r.value.venueAddress == input.venueAddress &&
      r.value.description == input.description && r.value.category == input.category &&
      r.value.imageUrl == input.imageUrl && r.value.sourceWebsite == input.sourceWebsite &&
      r.value.originalUrl == input.originalUrl)
  {
    if input.title == "" then Err(MissingTitle)
    else if input.originalUrl == "" then Err(MissingOriginalUrl)
    else Ok(Event(
      id, input.title, input.dateTime, input.venueName, input.venueAddress,
      input.city.GetOr(DefaultCity), input.description, input.category,
      input.imageUrl, input.sourceWebsite, input.originalUrl,
      input.lastScrapedAt.GetOr(now), input.status.GetOr(New),
      None, None, None))
  }

  /** The creation clock only feeds the `lastScrapedAt` default: a document that
      supplies `lastScrapedAt` is stored the same whatever the clock reads. */
  lemma CreateIgnoresClock(input: EventInput, id: nat, now1: int, now2: int)
    requires input.lastScrapedAt.Some?
    ensures Create(input, id, now1) == Create(input, id, now2)
  {
  }
}
