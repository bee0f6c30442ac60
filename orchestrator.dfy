/** The source loop of the scraping job (server/jobs/scrape.js): every configured
    source is fetched inside its own failure boundary, its page handed to the
    adapter its name selects, and the drafts concatenated in source order; a
    run with fewer than three drafts is topped up with the sample set. */
module Orchestrator {
  import opened Wrappers
  import opened Collections
  import opened Text
  import opened Adapters

  datatype Source = Source(name: string, url: string)

  /** The configured listing pages. */
  const Sources: seq<Source> := [
    Source("Timeout Sydney", "https://www.timeout.com/sydney/things-to-do"),
    Source("Eventbrite Sydney", "https://www.eventbrite.com.au/d/australia--sydney/events/")
  ]

  /** Fewer live drafts than this bring in the sample set. */
  const MinLiveDrafts: nat := 3

  /** What fetching one source produced: the cards of its page together with
      the clock reading its adapter took, or a failure of the fetch or the parse. */
  datatype FetchResult = Fetched(cards: seq<Card>, at: int) | FetchFailed

  datatype AdapterKind = TimeoutAdapter | EventbriteAdapter | NoAdapter

  /** A source's adapter is chosen by the words its name includes. */
  function AdapterFor(name: string): AdapterKind {
    if Contains(name, "Timeout") then TimeoutAdapter
    else if Contains(name, "Eventbrite") then EventbriteAdapter
    else NoAdapter
  }

  /** The first configured source selects the Timeout adapter. */
  lemma TimeoutSourceSelectsTimeout()
    ensures AdapterFor(Sources[0].name) == TimeoutAdapter
  {
    assert StartsWith(Sources[0].name, "Timeout");
  }

  /** The second configured source selects the Eventbrite adapter: its name
      starts with "Eventbrite" and has no capital T, so it does not include "Timeout". */
  lemma {:induction false} EventbriteSourceSelectsEventbrite()
    ensures AdapterFor(Sources[1].name) == EventbriteAdapter
  {
    var name := Sources[1].name;
    assert StartsWith(name, "Eventbrite");
    forall i | 0 <= i < |name|
      ensures name[i] != "Timeout"[0]
    {
    }
    MissingFirstChar(name, "Timeout");
  }

  /** Drafts contributed by one source. */
  function SourceDrafts(src: Source, outcome: FetchResult, parse: string -> Option<int>): (r: seq<Draft>)
    ensures outcome.FetchFailed? ==> r == []
    ensures AdapterFor(src.name) == NoAdapter ==> r == []
  {
    match outcome
    case FetchFailed => []
    case Fetched(cards, at) =>
      match AdapterFor(src.name)
      case TimeoutAdapter => TimeoutDrafts(cards, at)
      case EventbriteAdapter => EventbriteDrafts(cards, at, parse)
      case NoAdapter => []
  }

  /** The drafts each source contributed, source by source. */
  function Contributions(srcs: seq<Source>, outcomes: seq<FetchResult>, parse: string -> Option<int>)
    : (parts: seq<seq<Draft>>)
    requires |srcs| == |outcomes|
    ensures |parts| == |srcs|
    ensures forall k :: 0 <= k < |srcs| ==> parts[k] == SourceDrafts(srcs[k], outcomes[k], parse)
  {
    seq(|srcs|, k requires 0 <= k < |srcs| => SourceDrafts(srcs[k], outcomes[k], parse))
  }

  /** The drafts of all sources, in source order; `outcomes[k]` is what fetching `srcs[k]` gave. */
  function Aggregate(srcs: seq<Source>, outcomes: seq<FetchResult>, parse: string -> Option<int>): seq<Draft>
    requires |srcs| == |outcomes|
  {
    Concat(Contributions(srcs, outcomes, parse))
  }

  /** A failing source contributes nothing and does not stop the sources after it:
      the result is what the sources before it and after it produce, in order. */
  lemma FailingSourceIsIsolated(srcs: seq<Source>, outcomes: seq<FetchResult>, k: nat,
                                parse: string -> Option<int>)
    requires |srcs| == |outcomes| && k < |srcs|
    requires outcomes[k].FetchFailed?
    ensures Aggregate(srcs, outcomes, parse) ==
      Aggregate(srcs[..k], outcomes[..k], parse) + Aggregate(srcs[k + 1..], outcomes[k + 1..], parse)
  {
    var parts := Contributions(srcs, outcomes, parse);
    ContributionsSlice(srcs, outcomes, parse, 0, k);
    ContributionsSlice(srcs, outcomes, parse, k + 1, |srcs|);
    assert srcs[0..k] == srcs[..k] && outcomes[0..k] == outcomes[..k] && parts[0..k] == parts[..k];
    assert srcs[k + 1..|srcs|] == srcs[k + 1..] && outcomes[k + 1..|srcs|] == outcomes[k + 1..];
    assert parts[k + 1..|srcs|] == parts[k + 1..];
    assert parts == parts[..k] + [[]] + parts[k + 1..];
    ConcatSkipsEmpty(parts[..k], parts[k + 1..]);
  }

  /** The contributions of a slice of the sources are that slice of the contributions. */
  lemma ContributionsSlice(srcs: seq<Source>, outcomes: seq<FetchResult>, parse: string -> Option<int>,
                           lo: nat, hi: nat)
    requires |srcs| == |outcomes| && lo <= hi <= |srcs|
    ensures Contributions(srcs, outcomes, parse)[lo..hi] == Contributions(srcs[lo..hi], outcomes[lo..hi], parse)
  {
  }

  /** The live drafts, followed by the sample set when there are fewer than three. */
  function WithFallback(live: seq<Draft>, sampleAt: int): (r: seq<Draft>)
    ensures |r| >= MinLiveDrafts
    ensures live <= r
    ensures |live| < MinLiveDrafts ==> r == live + SampleEvents(sampleAt) && |r| == |live| + 5
    ensures |live| >= MinLiveDrafts ==> r == live
  {
    if |live| < MinLiveDrafts then live + SampleEvents(sampleAt) else live
  }

  /** The drafts of one run over `srcs`: every one has a usable title and a non-empty URL. */
  function RunDrafts(srcs: seq<Source>, outcomes: seq<FetchResult>, parse: string -> Option<int>,
                     sampleAt: int): (r: seq<Draft>)
    requires |srcs| == |outcomes|
    ensures forall k :: 0 <= k < |r| ==> Usable(r[k])
  {
    AggregateIsUsable(srcs, outcomes, parse);
    var r := WithFallback(Aggregate(srcs, outcomes, parse), sampleAt);
    assert forall k :: 0 <= k < |r| ==> r[k] in r;
    r
  }

  /** Every draft of the aggregate has a usable title and a non-empty URL. */
  lemma {:induction false} AggregateIsUsable(srcs: seq<Source>, outcomes: seq<FetchResult>,
                                            parse: string -> Option<int>)
    requires |srcs| == |outcomes|
    ensures forall d: Draft :: d in Aggregate(srcs, outcomes, parse) ==> Usable(d)
  {
    var parts := Contributions(srcs, outcomes, parse);
    forall k | 0 <= k < |parts|
      ensures forall d: Draft :: d in parts[k] ==> Usable(d)
    {
      if outcomes[k].Fetched? {
        TimeoutDraftsAreKept(outcomes[k].cards, outcomes[k].at);
        EventbriteDraftsAreKept(outcomes[k].cards, outcomes[k].at, parse);
      }
    }
    forall d: Draft | d in Concat(parts)
      ensures Usable(d)
    {
      ConcatMembers(parts, d);
    }
  }

  /** The `for (const src of SOURCES)` loop and the fallback top-up. */
  method CollectDrafts(srcs: seq<Source>, outcomes: seq<FetchResult>, parse: string -> Option<int>,
                       sampleAt: int) returns (all: seq<Draft>)
    requires |srcs| == |outcomes|
    ensures all == RunDrafts(srcs, outcomes, parse, sampleAt)
  {
    ghost var parts := Contributions(srcs, outcomes, parse);
    all := [];
    var k := 0;
    while k < |srcs|
      invariant 0 <= k <= |srcs|
      invariant all == Concat(parts[..k])
    {
      assert parts[..k + 1][..k] == parts[..k];
      var events: seq<Draft> := [];
      match outcomes[k] {
        case FetchFailed =>
        case Fetched(cards, at) =>
          var kind := AdapterFor(srcs[k].name);
          if kind == TimeoutAdapter {
            events := ScrapeTimeout(cards, at);
          } else if kind == EventbriteAdapter {
            events := ScrapeEventbrite(cards, at, parse);
          }
      }
      assert events == SourceDrafts(srcs[k], outcomes[k], parse);
      all := all + events;
      k := k + 1;
    }
    assert parts[..|srcs|] == parts;
    if |all| < MinLiveDrafts {
      var samples := SampleEvents(sampleAt);
      all := all + samples;
    }
  }
}
