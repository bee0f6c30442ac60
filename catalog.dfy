/** The Event collection as the scraping job and the import route change it in
    place (server/jobs/scrape.js, server/routes/events.js). */
module EventStore {
  import opened Wrappers
  import opened EventSchema
  import opened Adapters
  import opened Orchestrator
  import opened Reconcile
  import opened EventRoutes

  /** The stored Event records, in insertion order. */
  class Catalog {
    var records: seq<Event>

    /** Identity keys are unique, every identifier is the record's position and
        every record has the fields the schema requires. */
    ghost predicate Valid()
      reads this
    {
      WellFormed(records)
    }

    constructor()
      ensures Valid() && records == []
    {
      records := [];
    }

    /** One pass of the reconcile loop: look the draft's key up, then either
        overwrite the found record's fields and flag it, or create the record. */
    method ReconcileOne(d: Draft)
      requires Valid() && Storable(d)
      modifies this
      ensures records == Upsert(old(records), d)
      ensures Valid()
    {
      match KeyIndex(records, d) {
        case Some(i) =>
          var existing := records[i];
          var changed := existing.title != d.title || existing.dateTime != d.dateTime ||
                         existing.venueName != d.venueName;
          existing := existing.(title := d.title, dateTime := d.dateTime, venueName := d.venueName);
          existing := existing.(venueAddress := d.venueAddress, description := d.description);
          existing := existing.(imageUrl := d.imageUrl, lastScrapedAt := d.lastScrapedAt);
          if changed && existing.status != Imported {
            existing := existing.(status := Updated);
          }
          records := records[i := existing];
        case None =>
          records := records + [NewRecord(d, |records|)];
      }
    }

    /** The reconcile loop over a run's drafts. */
    method ReconcileAll(ds: seq<Draft>)
      requires Valid() && AllStorable(ds)
      modifies this
      ensures records == ApplyAll(old(records), ds)
      ensures Valid()
    {
      var i := 0;
      while i < |ds|
        invariant 0 <= i <= |ds|
        invariant Valid()
        invariant records == ApplyAll(old(records), ds[..i])
      {
        ApplyAllSnoc(old(records), ds, i);
        ReconcileOne(ds[i]);
        i := i + 1;
      }
      assert ds[..|ds|] == ds;
    }

    /** The sweep at time `now`: past records that are not `imported` become `inactive`. */
    method Sweep(now: int)
      requires Valid()
      modifies this
      ensures records == SweepAll(old(records), now)
      ensures Valid()
    {
      ghost var before := records;
      SweepKeepsWellFormed(before, now);
      var i := 0;
      while i < |records|
        invariant 0 <= i <= |records| == |before|
        invariant forall j :: 0 <= j < i ==> records[j] == Swept(before[j], now)
        invariant forall j :: i <= j < |records| ==> records[j] == before[j]
      {
        var e := records[i];
        if e.dateTime < now && e.status != Imported {
          records := records[i := e.(status := Inactive)];
        }
        i := i + 1;
      }
      assert records == SweepAll(before, now);
    }

    /** POST /:id/import: the response, and the record updated in place. */
    method Import(id: nat, user: Option<UserId>, notes: Option<string>, now: int)
      returns (response: Result<Event, ApiError>)
      requires Valid()
      modifies this
      ensures response == ImportEvent(old(records), id, user, notes, now).response
      ensures records == ImportEvent(old(records), id, user, notes, now).catalog
      ensures Valid()
    {
      ImportKeepsWellFormed(records, id, user, notes, now);
      if user.None? {
        return Err(Unauthorized);
      }
      match IdIndex(records, id) {
        case None =>
          response := Err(NotFound);
        case Some(i) =>
          var e := MarkImported(records[i], user.value, notes, now);
          records := records[i := e];
          response := Ok(e);
      }
    }

    /** One run of the job: collect the drafts of the configured sources, reconcile
        them, then sweep at `sweepAt`; the result is the number of drafts processed. */
    method RunScraper(outcomes: seq<FetchResult>, parse: string -> Option<int>, sampleAt: int, sweepAt: int)
      returns (processed: nat)
      requires Valid() && |outcomes| == |Sources|
      modifies this
      ensures processed == |RunDrafts(Sources, outcomes, parse, sampleAt)|
      ensures records == SweepAll(ApplyAll(old(records), RunDrafts(Sources, outcomes, parse, sampleAt)), sweepAt)
      ensures Valid()
    {
      var all := CollectDrafts(Sources, outcomes, parse, sampleAt);
      ReconcileAll(all);
      Sweep(sweepAt);
      processed := |all|;
    }
  }
}
