/** Source adapters of the scraping job (server/jobs/scrape.js): the per-card
    normalisation rules of the Timeout and Eventbrite listings, the loops that
    collect their drafts, and the fixed sample set used as a fallback.
    A card is the handful of fields the HTML selectors extract from one
    listing element, already trimmed. */
module Adapters {
  import opened Wrappers
  import opened Text
  import opened EventSchema

  /** One day in milliseconds. */
  const Day: int := 86400000

  /** Titles shorter than this are dropped. */
  const MinTitleLength: nat := 3

  const TimeoutOrigin: string := "https://www.timeout.com"
  const TimeoutSourceName: string := "Timeout Sydney"
  const TimeoutNoDescription: string := "Check the source for details."
  const EventbriteListingUrl: string := "https://www.eventbrite.com.au/d/australia--sydney/events/"
  const EventbriteSourceName: string := "Eventbrite"
  const EventbriteNoDescription: string := "Check Eventbrite for full details."
  const SampleSourceName: string := "Sample Source"
  const ListingTags: seq<string> := ["Sydney", "Events"]

  /** Fields extracted from one listing element. `link` and `img` are attribute
      values, absent when the element has none; the texts are trimmed and
      empty when missing. Timeout cards carry no date or venue text. */
  datatype Card = Card(
    title: string,
    link: Option<string>,
    img: Option<string>,
    desc: string,
    dateText: string,
    venue: string)

  /** A candidate event produced by an adapter during one run. */
  datatype Draft = Draft(
    title: string,
    dateTime: int,
    venueName: string,
    venueAddress: string,
    city: string,
    description: string,
    category: seq<string>,
    imageUrl: string,
    sourceWebsite: string,
    originalUrl: string,
    lastScrapedAt: int)

  /** `!title || title.length < 3` rejects the card. */
  predicate UsableTitle(title: string) {
    |title| >= MinTitleLength
  }

  /** What every emitted draft satisfies: a usable title and a non-empty URL. */
  predicate Usable(d: Draft) {
    UsableTitle(d.title) && d.originalUrl != ""
  }

  /** Synthetic date of the card at position `i` of the listing: `i + 1` days after `now`. */
  function FallbackDate(now: int, i: nat): int {
    now + (i + 1) * Day
  }

  /** A text field, or its default when the text is empty (`desc || default`). */
  function OrDefault(s: string, default: string): string {
    if s == "" then default else s
  }

  /** Absolute URL of a Timeout card: links that already start with "http" are
      kept, anything else (a path, or nothing) is appended to the site origin. */
  function ResolveTimeoutLink(link: Option<string>): (url: string)
    ensures StartsWith(url, "http")
    ensures link.Some? && StartsWith(link.value, "http") ==> url == link.value
    ensures !(link.Some? && StartsWith(link.value, "http")) ==>
      url == TimeoutOrigin + link.GetOr("") && StartsWith(url, TimeoutOrigin)
  {
    if link.Some? && StartsWith(link.value, "http") then link.value
    else
      assert (TimeoutOrigin + link.GetOr(""))[..4] == "http";
      TimeoutOrigin + link.GetOr("")
  }

  /** The draft of the Timeout card at position `i`, if the card is kept. */
  function TimeoutCard(card: Card, i: nat, now: int): (r: Option<Draft>)
    ensures r.Some? <==> UsableTitle(card.title) && Contains(ResolveTimeoutLink(card.link), "sydney")
    ensures r.Some? ==> (
      r.value.title == card.title &&
      r.value.dateTime == FallbackDate(now, i) &&
      r.value.originalUrl == ResolveTimeoutLink(card.link) &&
      r.value.venueName == "" && r.value.venueAddress == "" &&
      r.value.city == DefaultCity &&
      r.value.description == OrDefault(card.desc, TimeoutNoDescription) &&
      r.value.imageUrl == card.img.GetOr("") &&
      r.value.category == ListingTags &&
      r.value.sourceWebsite == TimeoutSourceName &&
      r.value.lastScrapedAt == now)
  {
    var url := ResolveTimeoutLink(card.link);
    if !UsableTitle(card.title) || !Contains(url, "sydney") then None
    else Some(Draft(
      card.title, FallbackDate(now, i), "", "", DefaultCity,
      OrDefault(card.desc, TimeoutNoDescription), ListingTags,
      card.img.GetOr(""), TimeoutSourceName, url, now))
  }

  /** Date of an Eventbrite card: `now` when the card shows no date, the parsed
      date when the text parses, and the synthetic date otherwise. */
  function EventbriteDate(dateText: string, i: nat, now: int, parse: string -> Option<int>): (t: int)
    ensures dateText == "" ==> t == now
    ensures dateText != "" && parse(dateText).Some? ==> t == parse(dateText).value
    ensures dateText != "" && parse(dateText).None? ==> t == FallbackDate(now, i) && t > now
  {
    if dateText == "" then now
    else match parse(dateText)
      case Some(parsed) => parsed
      case None => FallbackDate(now, i)
  }

  /** The draft of the Eventbrite card at position `i`, if the card is kept. */
  function EventbriteCard(card: Card, i: nat, now: int, parse: string -> Option<int>): (r: Option<Draft>)
    ensures r.Some? <==> UsableTitle(card.title)
    ensures r.Some? ==> (
      r.value.title == card.title &&
      r.value.dateTime == EventbriteDate(card.dateText, i, now, parse) &&
      r.value.venueName == card.venue && r.value.venueAddress == "" &&
      r.value.city == DefaultCity &&
      r.value.description == OrDefault(card.desc, EventbriteNoDescription) &&
      r.value.imageUrl == card.img.GetOr("") &&
      r.value.category == ListingTags &&
      r.value.sourceWebsite == EventbriteSourceName &&
      r.value.originalUrl == OrDefault(card.link.GetOr(""), EventbriteListingUrl) &&
      r.value.lastScrapedAt == now)
  {
    if !UsableTitle(card.title) then None
    else Some(Draft(
      card.title, EventbriteDate(card.dateText, i, now, parse), card.venue, "",
      DefaultCity, OrDefault(card.desc, EventbriteNoDescription), ListingTags,
      card.img.GetOr(""), EventbriteSourceName,
      OrDefault(card.link.GetOr(""), EventbriteListingUrl), now))
  }

  /** The drafts emitted for the cards of one page, in card order, where
      `emit(card, i)` is the rule for the card at position `i`. */
  function EachCard(cards: seq<Card>, emit: (Card, nat) -> Option<Draft>): (r: seq<Draft>)
    ensures |r| <= |cards|
    ensures forall d :: d in r ==> exists i :: 0 <= i < |cards| && emit(cards[i], i) == Some(d)
    ensures forall i :: 0 <= i < |cards| && emit(cards[i], i).Some? ==> emit(cards[i], i).value in r
  {
    if |cards| == 0 then []
    else
      var n := |cards| - 1;
      var front := EachCard(cards[..n], emit);
      assert forall i :: 0 <= i < n ==> cards[..n][i] == cards[i];
      front + (match emit(cards[n], n) case Some(d) => [d] case None => [])
  }

  function TimeoutDrafts(cards: seq<Card>, now: int): seq<Draft> {
    EachCard(cards, (c: Card, i: nat) => TimeoutCard(c, i, now))
  }

  function EventbriteDrafts(cards: seq<Card>, now: int, parse: string -> Option<int>): seq<Draft> {
    EachCard(cards, (c: Card, i: nat) => EventbriteCard(c, i, now, parse))
  }

  /** Dates strictly increase along a sequence of drafts. */
  predicate IncreasingDates(ds: seq<Draft>) {
    forall j, k :: 0 <= j < k < |ds| ==> ds[j].dateTime < ds[k].dateTime
  }

  /** A draft later than every draft so far keeps the dates increasing. */
  lemma AppendLaterKeepsIncreasing(ds: seq<Draft>, d: Draft)
    requires IncreasingDates(ds)
    requires forall k :: 0 <= k < |ds| ==> ds[k].dateTime < d.dateTime
    ensures IncreasingDates(ds + [d])
  {
  }

  /** The dated loop: when every emitted draft carries its card's synthetic date,
      the drafts fall within the first `|cards|` days after `now` and strictly
      increase. */
  lemma {:induction false} EachCardDatesIncrease(cards: seq<Card>, emit: (Card, nat) -> Option<Draft>, now: int)
    requires forall c: Card, i: nat :: emit(c, i).Some? ==> emit(c, i).value.dateTime == FallbackDate(now, i)
    ensures forall k :: 0 <= k < |EachCard(cards, emit)| ==>
      now + Day <= EachCard(cards, emit)[k].dateTime <= now + |cards| * Day
    ensures IncreasingDates(EachCard(cards, emit))
  {
    if |cards| > 0 {
      var n := |cards| - 1;
      EachCardDatesIncrease(cards[..n], emit, now);
      var front := EachCard(cards[..n], emit);
      var last := emit(cards[n], n);
      if last.Some? {
        assert EachCard(cards, emit) == front + [last.value];
        assert last.value.dateTime == now + (n + 1) * Day;
        AppendLaterKeepsIncreasing(front, last.value);
      } else {
        assert EachCard(cards, emit) == front;
      }
    }
  }

  /** Timeout drafts carry the synthetic date of their card's position among all
      cards, skipped ones included, so they fall within the first `|cards|` days
      after `now` and strictly increase. */
  lemma TimeoutDatesIncrease(cards: seq<Card>, now: int)
    ensures forall k :: 0 <= k < |TimeoutDrafts(cards, now)| ==>
      now + Day <= TimeoutDrafts(cards, now)[k].dateTime <= now + |cards| * Day
    ensures IncreasingDates(TimeoutDrafts(cards, now))
  {
    EachCardDatesIncrease(cards, (c: Card, i: nat) => TimeoutCard(c, i, now), now);
  }

  /** Every Timeout draft satisfies the card rules: a usable title and a URL that mentions "sydney". */
  lemma TimeoutDraftsAreKept(cards: seq<Card>, now: int)
    ensures forall d :: d in TimeoutDrafts(cards, now) ==>
      Usable(d) && Contains(d.originalUrl, "sydney") && StartsWith(d.originalUrl, "http")
  {
    forall d | d in TimeoutDrafts(cards, now)
      ensures Usable(d) && Contains(d.originalUrl, "sydney") && StartsWith(d.originalUrl, "http")
    {
      var i :| 0 <= i < |cards| && TimeoutCard(cards[i], i, now) == Some(d);
    }
  }

  /** Every Eventbrite draft has a usable title and a non-empty URL. */
  lemma EventbriteDraftsAreKept(cards: seq<Card>, now: int, parse: string -> Option<int>)
    ensures forall d :: d in EventbriteDrafts(cards, now, parse) ==> Usable(d)
  {
    forall d | d in EventbriteDrafts(cards, now, parse)
      ensures Usable(d)
    {
      var i :| 0 <= i < |cards| && EventbriteCard(cards[i], i, now, parse) == Some(d);
    }
  }

  /** The Timeout page loop: each element either pushes its draft or is skipped. */
  method ScrapeTimeout(cards: seq<Card>, now: int) returns (events: seq<Draft>)
    ensures events == TimeoutDrafts(cards, now)
  {
    events := [];
    var i := 0;
    while i < |cards|
      invariant 0 <= i <= |cards|
      invariant events == TimeoutDrafts(cards[..i], now)
    {
      assert cards[..i + 1][..i] == cards[..i];
      var d := TimeoutCard(cards[i], i, now);
      if d.Some? {
        events := events + [d.value];
      }
      i := i + 1;
    }
    assert cards[..|cards|] == cards;
  }

  /** The Eventbrite page loop. */
  method ScrapeEventbrite(cards: seq<Card>, now: int, parse: string -> Option<int>) returns (events: seq<Draft>)
    ensures events == EventbriteDrafts(cards, now, parse)
  {
    events := [];
    var i := 0;
    while i < |cards|
      invariant 0 <= i <= |cards|
      invariant events == EventbriteDrafts(cards[..i], now, parse)
    {
      assert cards[..i + 1][..i] == cards[..i];
      var d := EventbriteCard(cards[i], i, now, parse);
      if d.Some? {
        events := events + [d.value];
      }
      i := i + 1;
    }
    assert cards[..|cards|] == cards;
  }

  /** One row of the fallback table: the fixed fields of a sample event and its
      offset in days from the time the set is produced. */
  datatype SampleRow = SampleRow(
    title: string, days: nat, venue: string, address: string, description: string,
    tags: seq<string>, image: string, url: string)

  const SampleTable: seq<SampleRow> := [
    SampleRow("Sydney Opera House Tours", 2, "Sydney Opera House", "Bennelong Point, Sydney NSW 2000",
              "Guided tours of one of the world's most iconic buildings.", ["Tour", "Culture"],
              "https://images.unsplash.com/photo-1523059623039-a9ed027e7fad?w=400",
              "https://www.sydneyoperahouse.com/"),
    SampleRow("Bondi Beach Yoga", 3, "Bondi Beach", "Bondi Beach, Sydney NSW",
              "Free community yoga session at Bondi Beach.", ["Fitness", "Outdoor"],
              "https://images.unsplash.com/photo-1544367567-0f2fcb009e0b?w=400",
              "https://www.timeout.com/sydney/things-to-do"),
    SampleRow("The Rocks Markets", 1, "The Rocks", "George St, The Rocks NSW 2000",
              "Weekend markets with local crafts and food.", ["Markets", "Shopping"],
              "https://images.unsplash.com/photo-1488646953014-85cb44e25828?w=400",
              "https://therocks.com/"),
    SampleRow("Vivid Sydney Light Festival", 7, "Circular Quay", "Circular Quay, Sydney NSW 2000",
              "Annual light art and music festival across Sydney.", ["Festival", "Arts"],
              "https://images.unsplash.com/photo-1492684223066-81342ee5ff30?w=400",
              "https://www.vividsydney.com/"),
    SampleRow("Cooking Class - Thai Cuisine", 5, "Sydney Cooking School", "Surry Hills, Sydney",
              "Learn to cook authentic Thai dishes.", ["Food", "Workshop"],
              "https://images.unsplash.com/photo-1556909114-f6e7ad7d3136?w=400",
              "https://www.eventbrite.com.au/d/australia--sydney/food/")
  ]

  function SampleDraft(row: SampleRow, base: int): Draft {
    Draft(row.title, base + row.days * Day, row.venue, row.address, DefaultCity, row.description,
          row.tags, row.image, SampleSourceName, row.url, base)
  }

  /** The five hand-written events supplied when scraping yields too little,
      dated one to seven days after `base`. */
  function SampleEvents(base: int): (r: seq<Draft>)
    ensures |r| == 5
    ensures forall k :: 0 <= k < |r| ==> (
      Usable(r[k]) && base + Day <= r[k].dateTime <= base + 7 * Day &&
      r[k].sourceWebsite == SampleSourceName && r[k].city == DefaultCity &&
      r[k].lastScrapedAt == base)
  {
    seq(|SampleTable|, k requires 0 <= k < |SampleTable| => SampleDraft(SampleTable[k], base))
  }
}
