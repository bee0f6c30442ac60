/** Reconciliation of one run's drafts against the Event catalog and the
    staleness sweep that follows it (server/jobs/scrape.js). The catalog is the
    sequence of stored records in insertion order; a record is identified by
    the pair (originalUrl, title). */
module Reconcile {
  import opened Wrappers
  import opened Collections
  import opened EventSchema
  import opened Adapters

  /** The drafts `Event.create` accepts: the schema requires a title and an originalUrl. */
  predicate Storable(d: Draft) {
    RequiredPresent(d.title, d.originalUrl)
  }

  predicate AllStorable(ds: seq<Draft>) {
    forall k :: 0 <= k < |ds| ==> Storable(ds[k])
  }

  /** The identity key a record is matched by: `{ originalUrl, title }`. */
  datatype Key = Key(originalUrl: string, title: string)

  function KeyOf(e: Event): Key {
    Key(e.originalUrl, e.title)
  }

  function DraftKey(d: Draft): Key {
    Key(d.originalUrl, d.title)
  }

  /** The record and the draft have the same identity key. */
  predicate SameKey(e: Event, d: Draft) {
    KeyOf(e) == DraftKey(d)
  }

  /** `Event.findOne({ originalUrl, title })`: the first record with the draft's key. */
  function KeyIndex(c: seq<Event>, d: Draft): (r: Option<nat>)
    ensures r.Some? ==> r.value < |c| && SameKey(c[r.value], d)
    ensures r.Some? ==> forall j :: 0 <= j < r.value ==> !SameKey(c[j], d)
    ensures r.None? ==> forall j :: 0 <= j < |c| ==> !SameKey(c[j], d)
  {
    FirstIndex(c, (e: Event) => SameKey(e, d))
  }

  /** No two records share an identity key. */
  predicate UniqueKeys(c: seq<Event>) {
    forall i, j :: 0 <= i < j < |c| ==> KeyOf(c[i]) != KeyOf(c[j])
  }

  /** Every record's identifier is its position: records are appended and never removed. */
  predicate IdsArePositions(c: seq<Event>) {
    forall i :: 0 <= i < |c| ==> c[i].id == i
  }

  /** Every stored record has the fields the schema requires. */
  predicate AllRequired(c: seq<Event>) {
    forall i :: 0 <= i < |c| ==> HasRequiredFields(c[i])
  }

  /** The catalog invariant: keys unique, identifiers positional, required fields present. */
  predicate WellFormed(c: seq<Event>) {
    UniqueKeys(c) && IdsArePositions(c) && AllRequired(c)
  }

  /** The tracked fields differ: the test that decides whether a record is flagged `updated`. */
  predicate Changed(e: Event, d: Draft) {
    e.title != d.title || e.dateTime != d.dateTime || e.venueName != d.venueName
  }

  /** The fields a later sighting overwrites, taken from the draft. */
  function Overwrite(e: Event, d: Draft): Event {
    e.(title := d.title, dateTime := d.dateTime, venueName := d.venueName,
       venueAddress := d.venueAddress, description := d.description,
       imageUrl := d.imageUrl, lastScrapedAt := d.lastScrapedAt)
  }

  /** A matched record after a later sighting `d`: the overwritten fields come
      from the draft; a change of a tracked field flags it `updated` unless it is
      `imported`. */
  function Refresh(e: Event, d: Draft): (r: Event)
    ensures r.status == Imported <==> e.status == Imported
    ensures r.status != e.status ==> r.status == Updated && Changed(e, d)
    ensures Changed(e, d) && e.status != Imported ==> r.status == Updated
    ensures r.(status := e.status) == Overwrite(e, d)
  {
    Overwrite(e, d).(status := if Changed(e, d) && e.status != Imported then Updated else e.status)
  }

  /** The document `Event.create({ ...ev, status: 'new' })` stores; the draft
      supplies lastScrapedAt, so the creation clock plays no part. */
  function CreateInput(d: Draft): EventInput {
    EventInput(d.title, d.dateTime, d.venueName, d.venueAddress, Some(d.city), d.description,
               d.category, d.imageUrl, d.sourceWebsite, d.originalUrl, Some(d.lastScrapedAt), Some(New))
  }

  /** The record created for the first sighting of a key. */
  function NewRecord(d: Draft, id: nat): (r: Event)
    requires Storable(d)
    ensures r.status == New && r.id == id && SameKey(r, d) && HasRequiredFields(r)
    ensures r.importedAt.None? && r.importedBy.None? && r.importNotes.None?
    ensures r == Overwrite(r, d) && r.city == d.city && r.category == d.category && r.sourceWebsite == d.sourceWebsite
  {
    Create(CreateInput(d), id, d.lastScrapedAt).value
  }

  /** One iteration of the reconcile loop: refresh the record with the draft's
      key, or append a new one. */
  function Upsert(c: seq<Event>, d: Draft): (r: seq<Event>)
    requires Storable(d)
    ensures KeyIndex(c, d).None? ==> r == c + [NewRecord(d, |c|)]
    ensures KeyIndex(c, d).Some? ==> |r| == |c|
    ensures KeyIndex(c, d).Some? ==> forall j :: 0 <= j < |c| && j != KeyIndex(c, d).value ==> r[j] == c[j]
    ensures KeyIndex(c, d).Some? ==>
      var e := c[KeyIndex(c, d).value];
      r[KeyIndex(c, d).value] == Overwrite(e, d).(status := r[KeyIndex(c, d).value].status) &&
      r[KeyIndex(c, d).value].status ==
        (if (e.dateTime != d.dateTime || e.venueName != d.venueName) && e.status != Imported
         then Updated else e.status)
    ensures KeyIndex(r, d).Some?
    ensures WellFormed(c) ==> WellFormed(r)
  {
    match KeyIndex(c, d)
    case None =>
      var r := c + [NewRecord(d, |c|)];
      assert SameKey(r[|c|], d);
      r
    case Some(i) =>
      var r := c[i := Refresh(c[i], d)];
      assert SameKey(r[i], d);
      r
  }

  /** The reconcile loop over a run's drafts, in order. */
  function ApplyAll(c: seq<Event>, ds: seq<Draft>): (r: seq<Event>)
    requires AllStorable(ds)
    ensures |r| >= |c|
    decreases |ds|
  {
    if |ds| == 0 then c
    else Upsert(ApplyAll(c, ds[..|ds| - 1]), ds[|ds| - 1])
  }

  /** What reconciliation keeps of a stored record: its identifier and key, and
      its status, unless that becomes `updated` from anything but `imported`. */
  predicate Kept(before: Event, after: Event) {
    after.id == before.id && KeyOf(after) == KeyOf(before) &&
    (after.status == before.status || (after.status == Updated && before.status != Imported))
  }

  /** One reconcile step keeps every stored record. */
  lemma UpsertKeepsRecords(c: seq<Event>, d: Draft)
    requires Storable(d)
    ensures forall i :: 0 <= i < |c| ==> Kept(c[i], Upsert(c, d)[i])
  {
  }

  /** The loop after `i + 1` drafts is one more step after `i` drafts. */
  lemma ApplyAllSnoc(c: seq<Event>, ds: seq<Draft>, i: nat)
    requires AllStorable(ds) && i < |ds|
    ensures AllStorable(ds[..i]) && AllStorable(ds[..i + 1]) && Storable(ds[i])
    ensures ApplyAll(c, ds[..i + 1]) == Upsert(ApplyAll(c, ds[..i]), ds[i])
  {
    assert ds[..i + 1][..i] == ds[..i];
  }

  /** Reconciliation never removes a record and never re-keys one: every record
      keeps its position, identifier and key; its status stays or becomes
      `updated`, and `imported` records stay `imported`. */
  lemma {:induction false} ApplyAllKeepsRecords(c: seq<Event>, ds: seq<Draft>)
    requires AllStorable(ds)
    ensures |ApplyAll(c, ds)| >= |c|
    ensures forall i :: 0 <= i < |c| ==> Kept(c[i], ApplyAll(c, ds)[i])
    decreases |ds|
  {
    if |ds| > 0 {
      var n := |ds| - 1;
      var t := ApplyAll(c, ds[..n]);
      ApplyAllKeepsRecords(c, ds[..n]);
      UpsertKeepsRecords(t, ds[n]);
    }
  }

  /** Reconciliation keeps identity keys unique, identifiers positional and the
      required fields present, and
      afterwards every draft's key has a record: a key seen twice in one run,
      or already stored, never gets a second record. */
  lemma {:induction false} ApplyAllKeepsKeysUnique(c: seq<Event>, ds: seq<Draft>)
    requires AllStorable(ds) && WellFormed(c)
    ensures WellFormed(ApplyAll(c, ds))
    ensures forall k :: 0 <= k < |ds| ==> KeyIndex(ApplyAll(c, ds), ds[k]).Some?
    decreases |ds|
  {
    if |ds| > 0 {
      var n := |ds| - 1;
      var t := ApplyAll(c, ds[..n]);
      ApplyAllKeepsKeysUnique(c, ds[..n]);
      var r := Upsert(t, ds[n]);
      forall k | 0 <= k < |ds|
        ensures KeyIndex(r, ds[k]).Some?
      {
        if k < n {
          assert ds[..n][k] == ds[k];
          var j := KeyIndex(t, ds[k]).value;
          assert SameKey(r[j], ds[k]);
        }
      }
    }
  }

  // ---------------------------------------------------------------------------
  // Staleness sweep: updateMany({ dateTime < now, status != imported }, { status: inactive })
  // ---------------------------------------------------------------------------

  /** The sweep's effect on one record. */
  function Swept(e: Event, now: int): Event {
    if e.dateTime < now && e.status != Imported then e.(status := Inactive) else e
  }

  /** The sweep: every record dated before `now` that is not `imported` becomes
      `inactive`; every other record is left as it is, and none is removed. */
  function SweepAll(c: seq<Event>, now: int): (r: seq<Event>)
    ensures |r| == |c|
    ensures forall i :: 0 <= i < |c| ==> r[i] == Swept(c[i], now)
    ensures forall i :: 0 <= i < |c| && c[i].dateTime < now && c[i].status != Imported ==>
      r[i] == c[i].(status := Inactive)
    ensures forall i :: 0 <= i < |c| && (c[i].dateTime >= now || c[i].status == Imported) ==>
      r[i] == c[i]
  {
    if |c| == 0 then []
    else
      var n := |c| - 1;
      SweepAll(c[..n], now) + [Swept(c[n], now)]
  }

  /** The sweep keeps identity keys unique, identifiers positional and the required fields present. */
  lemma SweepKeepsWellFormed(c: seq<Event>, now: int)
    requires WellFormed(c)
    ensures WellFormed(SweepAll(c, now))
  {
    var r := SweepAll(c, now);
    assert forall i :: 0 <= i < |c| ==> r[i].(status := c[i].status) == c[i];
  }

  /** The sweep changes nothing a second time at the same instant. */
  lemma SweepIsIdempotent(c: seq<Event>, now: int)
    ensures SweepAll(SweepAll(c, now), now) == SweepAll(c, now)
  {
  }

  /** Across one run (reconciliation, then the sweep) a stored record keeps its
      identity; its status stays, becomes `updated` or becomes `inactive`, and an
      `imported` record stays `imported`. */
  lemma RunStatusTransitions(c: seq<Event>, ds: seq<Draft>, now: int)
    requires AllStorable(ds)
    ensures |SweepAll(ApplyAll(c, ds), now)| >= |c|
    ensures forall i :: 0 <= i < |c| ==>
      var s := SweepAll(ApplyAll(c, ds), now)[i].status;
      s == c[i].status || s == Updated || s == Inactive
    ensures forall i :: 0 <= i < |c| && c[i].status == Imported ==>
      SweepAll(ApplyAll(c, ds), now)[i].status == Imported
    ensures forall i :: 0 <= i < |c| ==>
      SweepAll(ApplyAll(c, ds), now)[i].id == c[i].id &&
      KeyOf(SweepAll(ApplyAll(c, ds), now)[i]) == KeyOf(c[i])
  {
    ApplyAllKeepsRecords(c, ds);
  }

  // ---------------------------------------------------------------------------
  // Idempotence: a second application of the same drafts changes nothing.
  // ---------------------------------------------------------------------------

  /** The drafts of `ds` with identity key `k`, in order. */
  function DraftsFor(ds: seq<Draft>, k: Key): (r: seq<Draft>)
    ensures forall d :: d in r ==> d in ds && DraftKey(d) == k
    ensures forall d :: d in ds && DraftKey(d) == k ==> d in r
    decreases |ds|
  {
    if |ds| == 0 then []
    else
      var n := |ds| - 1;
      DraftsFor(ds[..n], k) + (if DraftKey(ds[n]) == k then [ds[n]] else [])
  }

  /** A record after the successive sightings `ds`. */
  function RefreshAll(e: Event, ds: seq<Draft>): Event
    decreases |ds|
  {
    if |ds| == 0 then e else Refresh(RefreshAll(e, ds[..|ds| - 1]), ds[|ds| - 1])
  }

  /** Some sighting in `ds` differs from `e` in a tracked field. */
  predicate DriftsFrom(e: Event, ds: seq<Draft>) {
    exists k :: 0 <= k < |ds| && Changed(e, ds[k])
  }

  /** Extending the sightings by one: the drift test splits into the earlier
      sightings and the new one. */
  lemma DriftsFromSnoc(e: Event, ds: seq<Draft>, d: Draft)
    ensures DriftsFrom(e, ds + [d]) <==> DriftsFrom(e, ds) || Changed(e, d)
  {
    var all := ds + [d];
    if DriftsFrom(e, ds) {
      var k :| 0 <= k < |ds| && Changed(e, ds[k]);
      assert all[k] == ds[k];
    }
    if Changed(e, d) {
      assert all[|ds|] == d;
    }
    if DriftsFrom(e, all) {
      var k :| 0 <= k < |all| && Changed(e, all[k]);
      if k < |ds| {
        assert all[k] == ds[k];
      }
    }
  }

  /** Closed form of successive sightings: the overwritten fields come from the
      last sighting, and the status is `updated` exactly when some sighting
      drifted from the starting tracked fields, unless the record is `imported`. */
  lemma {:induction false} RefreshAllClosedForm(e: Event, ds: seq<Draft>)
    requires |ds| > 0
    ensures RefreshAll(e, ds) == Overwrite(e, ds[|ds| - 1]).(status :=
      if e.status == Imported then Imported
      else if DriftsFrom(e, ds) then Updated
      else e.status)
    decreases |ds|
  {
    var n := |ds| - 1;
    var front := ds[..n];
    assert ds == front + [ds[n]];
    DriftsFromSnoc(e, front, ds[n]);
    if n > 0 {
      RefreshAllClosedForm(e, front);
      if !DriftsFrom(e, front) {
        assert !Changed(e, front[n - 1]);
      }
    } else {
      assert !DriftsFrom(e, front);
    }
  }

  /** The drafts with one key after one more draft. */
  lemma DraftsForSnoc(ds: seq<Draft>, d: Draft, k: Key)
    ensures DraftsFor(ds + [d], k) == DraftsFor(ds, k) + (if DraftKey(d) == k then [d] else [])
  {
    assert (ds + [d])[..|ds|] == ds;
  }

  /** A record that its own sightings leave unchanged. */
  predicate Settled(e: Event, ds: seq<Draft>) {
    RefreshAll(e, DraftsFor(ds, KeyOf(e))) == e
  }

  /** Refreshing a record that its earlier sightings `ds` leave unchanged gives a
      record that the sightings `ds + [d]` leave unchanged. */
  lemma RefreshStaysSettled(x: Event, ds: seq<Draft>, d: Draft)
    requires RefreshAll(x, ds) == x
    ensures RefreshAll(Refresh(x, d), ds + [d]) == Refresh(x, d)
  {
    var y := Refresh(x, d);
    var all := ds + [d];
    assert all[..|ds|] == ds;
    RefreshAllClosedForm(y, all);
    DriftsFromSnoc(y, ds, d);
    if y.status != Imported && y.status != Updated {
      assert y.status == x.status && !Changed(x, d);
      if |ds| > 0 {
        RefreshAllClosedForm(x, ds);
        assert !DriftsFrom(x, ds);
      }
    }
  }

  /** The hypotheses of one reconcile step: drafts so far have settled records in `t`. */
  predicate SettledUpTo(t: seq<Event>, front: seq<Draft>) {
    WellFormed(t) &&
    (forall p :: 0 <= p < |t| ==> Settled(t[p], front)) &&
    (forall k :: 0 <= k < |front| ==> KeyIndex(t, front[k]).Some?)
  }

  /** A draft with another key leaves a settled record settled. */
  lemma OtherKeyStaysSettled(e: Event, front: seq<Draft>, d: Draft)
    requires Settled(e, front) && !SameKey(e, d)
    ensures Settled(e, front + [d])
  {
    DraftsForSnoc(front, d, KeyOf(e));
    assert DraftsFor(front, KeyOf(e)) + [] == DraftsFor(front, KeyOf(e));
  }

  /** A draft with the record's key, applied to it, leaves it settled. */
  lemma RefreshedStaysSettled(e: Event, front: seq<Draft>, d: Draft)
    requires Settled(e, front) && SameKey(e, d)
    ensures Settled(Refresh(e, d), front + [d])
  {
    DraftsForSnoc(front, d, KeyOf(e));
    RefreshStaysSettled(e, DraftsFor(front, KeyOf(e)), d);
  }

  /** A record created for a key not seen earlier in the run is settled. */
  lemma NewRecordSettled(d: Draft, id: nat, front: seq<Draft>)
    requires Storable(d) && DraftsFor(front, DraftKey(d)) == []
    ensures Settled(NewRecord(d, id), front + [d])
  {
    DraftsForSnoc(front, d, DraftKey(d));
    assert [d][..0] == [];
  }

  /** A refreshing step keeps every record settled. */
  lemma RefreshStepSettles(t: seq<Event>, front: seq<Draft>, d: Draft)
    requires Storable(d) && SettledUpTo(t, front) && KeyIndex(t, d).Some?
    ensures forall p :: 0 <= p < |Upsert(t, d)| ==> Settled(Upsert(t, d)[p], front + [d])
  {
    var i := KeyIndex(t, d).value;
    var r := Upsert(t, d);
    assert r == t[i := Refresh(t[i], d)];
    forall p | 0 <= p < |r|
      ensures Settled(r[p], front + [d])
    {
      if p == i {
        RefreshedStaysSettled(t[i], front, d);
      } else {
        OtherKeyStaysSettled(t[p], front, d);
      }
    }
  }

  /** A key with no record has no sighting among drafts whose keys all have records. */
  lemma UnseenKeyHasNoSightings(t: seq<Event>, front: seq<Draft>, d: Draft)
    requires forall k :: 0 <= k < |front| ==> KeyIndex(t, front[k]).Some?
    requires KeyIndex(t, d).None?
    ensures DraftsFor(front, DraftKey(d)) == []
  {
    var earlier := DraftsFor(front, DraftKey(d));
    if earlier != [] {
      var x := earlier[0];
      assert x in front;
      var k :| 0 <= k < |front| && front[k] == x;
      var j := KeyIndex(t, x).value;
      assert SameKey(t[j], d);
      assert false;
    }
  }

  /** An appending step keeps every record settled: the new key was not seen earlier in the run. */
  lemma AppendStepSettles(t: seq<Event>, front: seq<Draft>, d: Draft)
    requires Storable(d) && SettledUpTo(t, front) && KeyIndex(t, d).None?
    ensures forall p :: 0 <= p < |Upsert(t, d)| ==> Settled(Upsert(t, d)[p], front + [d])
  {
    var r := Upsert(t, d);
    UnseenKeyHasNoSightings(t, front, d);
    forall p | 0 <= p < |r|
      ensures Settled(r[p], front + [d])
    {
      if p < |t| {
        OtherKeyStaysSettled(t[p], front, d);
      } else {
        NewRecordSettled(d, |t|, front);
      }
    }
  }

  /** After one application, every record is settled with respect to the drafts. */
  lemma {:induction false} ApplyAllSettles(c: seq<Event>, ds: seq<Draft>)
    requires AllStorable(ds) && WellFormed(c)
    ensures SettledUpTo(ApplyAll(c, ds), ds)
    decreases |ds|
  {
    ApplyAllKeepsKeysUnique(c, ds);
    if |ds| > 0 {
      var n := |ds| - 1;
      var front := ds[..n];
      var d := ds[n];
      assert ds == front + [d];
      ApplyAllSettles(c, front);
      var t := ApplyAll(c, front);
      if KeyIndex(t, d).Some? {
        RefreshStepSettles(t, front, d);
      } else {
        AppendStepSettles(t, front, d);
      }
    }
  }

  /** Applying drafts whose keys are all stored touches no record but its own:
      each record ends as its own sightings leave it. */
  lemma {:induction false} ApplyAllPointwise(c: seq<Event>, ds: seq<Draft>)
    requires AllStorable(ds) && UniqueKeys(c)
    requires forall k :: 0 <= k < |ds| ==> KeyIndex(c, ds[k]).Some?
    ensures |ApplyAll(c, ds)| == |c|
    ensures forall p :: 0 <= p < |c| ==>
      ApplyAll(c, ds)[p] == RefreshAll(c[p], DraftsFor(ds, KeyOf(c[p])))
    decreases |ds|
  {
    if |ds| > 0 {
      var n := |ds| - 1;
      var front := ds[..n];
      assert ds == front + [ds[n]];
      ApplyAllPointwise(c, front);
      ApplyAllKeepsRecords(c, front);
      PointwiseStep(c, ApplyAll(c, front), front, ds[n]);
    }
  }

  /** Matching by key gives the same answer on catalogs with the same keys, position by position. */
  lemma KeyIndexOnSameKeys(c: seq<Event>, t: seq<Event>, d: Draft)
    requires |t| == |c| && forall p :: 0 <= p < |c| ==> KeyOf(t[p]) == KeyOf(c[p])
    ensures KeyIndex(t, d) == KeyIndex(c, d)
  {
    match KeyIndex(c, d)
    case None =>
    case Some(i) =>
      assert SameKey(t[i], d);
      forall j | 0 <= j < i ensures !SameKey(t[j], d) {
        assert !SameKey(c[j], d);
      }
  }

  /** One step of the second application: the draft's record takes one more
      sighting and every other record stays as it was. */
  lemma PointwiseStep(c: seq<Event>, t: seq<Event>, front: seq<Draft>, d: Draft)
    requires Storable(d) && UniqueKeys(c) && KeyIndex(c, d).Some?
    requires |t| == |c|
    requires forall p :: 0 <= p < |c| ==> Kept(c[p], t[p])
    requires forall p :: 0 <= p < |c| ==> t[p] == RefreshAll(c[p], DraftsFor(front, KeyOf(c[p])))
    ensures |Upsert(t, d)| == |c|
    ensures forall p :: 0 <= p < |c| ==>
      Upsert(t, d)[p] == RefreshAll(c[p], DraftsFor(front + [d], KeyOf(c[p])))
  {
    KeyIndexOnSameKeys(c, t, d);
    var i := KeyIndex(c, d).value;
    forall p | 0 <= p < |c|
      ensures Upsert(t, d)[p] == RefreshAll(c[p], DraftsFor(front + [d], KeyOf(c[p])))
    {
      DraftsForSnoc(front, d, KeyOf(c[p]));
      if p != i {
        assert !SameKey(c[p], d);
        assert DraftsFor(front, KeyOf(c[p])) + [] == DraftsFor(front, KeyOf(c[p]));
      }
    }
  }

  /** Reapplying the same drafts to the result of a first application leaves the
      catalog unchanged. */
  lemma ReconcileIsIdempotent(c: seq<Event>, ds: seq<Draft>)
    requires AllStorable(ds) && WellFormed(c)
    ensures ApplyAll(ApplyAll(c, ds), ds) == ApplyAll(c, ds)
  {
    var c1 := ApplyAll(c, ds);
    ApplyAllKeepsKeysUnique(c, ds);
    ApplyAllSettles(c, ds);
    ApplyAllPointwise(c1, ds);
    var c2 := ApplyAll(c1, ds);
    forall p | 0 <= p < |c1| ensures c2[p] == c1[p] {
      assert Settled(c1[p], ds);
    }
  }
}
