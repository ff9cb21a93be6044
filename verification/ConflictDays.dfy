/** Conflict rows are filed under the days they concern, so a reader who filters on one day misses none of them. */
module ConflictDays {
  import opened Events
  import opened Reference
  import opened Ledgers
  import opened LedgerProof
  import opened MergeProof
  import opened BulkLedgers
  import opened ServingRuns

  /** A row of the event's own day names its id and its vehicle. */
  ghost predicate NamedOnDay(cs: Conflicts, e: Event) {
    exists k :: k in cs && k.eventId == e.id && cs[k].day == DayOf(e.ts) && cs[k].vehicle == e.vehicle
  }

  /** A row of the event's own day carries its trip and its vehicle. */
  ghost predicate TripOnDay(cs: Conflicts, e: Event) {
    exists k :: k in cs && cs[k].trip == e.trip && cs[k].day == DayOf(e.ts) && cs[k].vehicle == e.vehicle
  }

  /** A row that is the event's own: its id, its day, its trip. */
  ghost predicate Posted(cs: Conflicts, e: Event) {
    exists k :: k in cs && k.eventId == e.id && cs[k] == ConflictOf(e)
  }

  predicate Keyed(keys: Keys, e: Event) {
    e.id in keys && keys[e.id].fingerprint == e
  }

  /** What the conflict ledger says day by day about everything delivered so far. */
  ghost predicate DaysMirror(t: Tables, seen: set<Event>) {
    && (forall e :: e in seen ==> Keyed(t.keys, e) || Posted(t.conflicts, e))
    && (forall e :: e in seen && BadId(seen, e.id) ==> NamedOnDay(t.conflicts, e))
    && (forall e :: e in seen && e.completed && HasBadTrip(seen, e) ==> TripOnDay(t.conflicts, e))
  }

  /* ---- what one batch files ---- */

  ghost predicate KnownFiled(cs: Conflicts, id: string, row: KeyRow) {
    exists k :: k in cs && k.eventId == id && cs[k] == KnownConflict(row)
  }

  ghost predicate WithdrawnFiled(cs: Conflicts, trip: string, s: Signature) {
    exists k :: k in cs && cs[k] == WithdrawnConflict(trip, s)
  }

  ghost predicate Files(t: Tables, batch: set<Event>, ids: set<string>, trips: set<string>, after: Conflicts) {
    && (forall k :: k in t.conflicts ==> k in after && after[k] == t.conflicts[k])
    && (forall e :: e in batch && Rejects(ids, trips, e) ==> Posted(after, e))
    && (forall k :: k in t.keys && k in ids ==> KnownFiled(after, k, t.keys[k]))
    && (forall trip :: trip in t.trips && trip in trips ==> WithdrawnFiled(after, trip, t.trips[trip]))
  }

  /** A staged merge files all of it, also under a used batch id: a row it cannot insert is there already. */
  lemma {:induction false} MergeFiles(t: Tables, seen: set<Event>, rows: Topic, batchId: int, topic: Topic)
    requires Mirrors(t, seen) && AllValid(seen) && ReasonsDetermined(t.keys, t.conflicts, topic) && FromTopic(rows, topic)
    ensures Files(t, rows.Values, ConflictIds(t, rows.Values), BadTrips(t, rows.Values), Merge(t, rows, batchId).conflicts)
  {
    var ids, trips := ConflictIds(t, rows.Values), BadTrips(t, rows.Values);
    var after := Merge(t, rows, batchId).conflicts;
    RecordConflictsRecords(t, rows, batchId, ids, trips);
    ReasonsStayDetermined(t, rows, batchId, ids, trips, t.keys, after, topic);
    hide *;
    assert forall k :: k in t.conflicts ==> k in after && after[k] == t.conflicts[k] by { RecordsKeep(t, rows, batchId, ids, trips, after); }
    forall e | e in rows.Values && Rejects(ids, trips, e) ensures Posted(after, e) {
      RejectedIsPosted(t, rows, batchId, ids, trips, after, topic, e);
    }
    forall k | k in t.keys && k in ids ensures KnownFiled(after, k, t.keys[k]) {
      KnownIsFiled(t, rows, batchId, ids, trips, after, topic, k);
    }
    forall trip | trip in t.trips && trip in trips ensures WithdrawnFiled(after, trip, t.trips[trip]) {
      StoredTripIsUnrecorded(t, seen, trip);
      WithdrawnIsFiled(t, rows, batchId, ids, trips, after, topic, trip);
    }
    FilesMeans(t, rows.Values, ids, trips, after);
  }

  lemma RecordsKeep(t: Tables, rows: Topic, batchId: int, ids: set<string>, trips: set<string>, after: Conflicts)
    requires Records(t, rows, batchId, ids, trips, after)
    ensures forall k :: k in t.conflicts ==> k in after && after[k] == t.conflicts[k]
  {
    hide NewRow, Rejects;
  }

  lemma RejectedIsPosted(
    t: Tables, rows: Topic, batchId: int, ids: set<string>, trips: set<string>, after: Conflicts, topic: Topic, e: Event)
    requires Records(t, rows, batchId, ids, trips, after) && ReasonsDetermined(t.keys, after, topic) && FromTopic(rows, topic)
    requires e in rows.Values && Rejects(ids, trips, e)
    ensures Posted(after, e)
  {
    hide NewRow, Rejects;
    var p :| p in rows && rows[p] == e;
    var k := ConflictKey(batchId, rows[p].id, StagedConflict(p));
    assert k in after && ReasonDetermined(t.keys, topic, k, after[k]);
  }

  lemma KnownIsFiled(
    t: Tables, rows: Topic, batchId: int, ids: set<string>, trips: set<string>, after: Conflicts, topic: Topic, id: string)
    requires Records(t, rows, batchId, ids, trips, after) && ReasonsDetermined(t.keys, after, topic)
    requires id in t.keys && id in ids
    ensures KnownFiled(after, id, t.keys[id])
  {
    hide NewRow, Rejects;
    var k := ConflictKey(batchId, id, PriorEventConflict);
    assert k in after && ReasonDetermined(t.keys, topic, k, after[k]);
  }

  /** The row of a withdrawn trip cannot be there already: it would have blocked the trip. */
  lemma WithdrawnIsFiled(
    t: Tables, rows: Topic, batchId: int, ids: set<string>, trips: set<string>, after: Conflicts, topic: Topic, trip: string)
    requires Records(t, rows, batchId, ids, trips, after) && ReasonsDetermined(t.keys, after, topic)
    requires trip in t.trips && trip in trips && trip !in BlockedTrips(t.conflicts)
    ensures WithdrawnFiled(after, trip, t.trips[trip])
  {
    hide Rejects, BlockedTrips;
    PriorIdIsInjective();
    var k := ConflictKey(batchId, PriorId(trip), PriorTripConflict);
    assert k in after && ReasonDetermined(t.keys, topic, k, after[k]);
    if k in t.conflicts {
      CarriedIsBlocked(t.conflicts, k);
    } else {
      assert NewRow(t, rows, ids, trips, k, after[k]);
    }
  }

  lemma CarriedIsBlocked(cs: Conflicts, k: ConflictKey)
    requires k in cs && cs[k].trip.Some?
    ensures cs[k].trip.value in BlockedTrips(cs)
  {}

  lemma FilesMeans(t: Tables, batch: set<Event>, ids: set<string>, trips: set<string>, after: Conflicts)
    requires forall k :: k in t.conflicts ==> k in after && after[k] == t.conflicts[k]
    requires forall e :: e in batch && Rejects(ids, trips, e) ==> Posted(after, e)
    requires forall k :: k in t.keys && k in ids ==> KnownFiled(after, k, t.keys[k])
    requires forall trip :: trip in t.trips && trip in trips ==> WithdrawnFiled(after, trip, t.trips[trip])
    ensures Files(t, batch, ids, trips, after)
  {
    hide Rejects, Posted, KnownFiled, WithdrawnFiled;
  }

  /** No rejected row of a row-by-row batch is dropped for a different row under the same key. */
  predicate NothingDropped(t: Tables, events: seq<Event>, batchId: int) {
    var rows := Rejected(t, events, batchId, BulkIds(t, EventSet(events)), BulkTrips(t, EventSet(events)));
    forall k :: k in rows && k in t.conflicts ==> t.conflicts[k] == rows[k]
  }

  lemma NothingDroppedMeans(t: Tables, events: seq<Event>, batchId: int)
    requires NothingDropped(t, events, batchId)
    ensures var rows := Rejected(t, events, batchId, BulkIds(t, EventSet(events)), BulkTrips(t, EventSet(events)));
            forall k :: k in rows ==> k in rows + t.conflicts && (rows + t.conflicts)[k] == rows[k]
  {
    hide BulkIds, BulkTrips, Rejected;
  }

  lemma FreshBatchDropsNothing(t: Tables, events: seq<Event>, batchId: int)
    requires FreshBatch(t, batchId)
    ensures NothingDropped(t, events, batchId)
  {
    var ids, trips := BulkIds(t, EventSet(events)), BulkTrips(t, EventSet(events));
    RejectedRecordsCopies(t, events, batchId, ids, trips);
    hide BulkIds, BulkTrips, Rejected;
  }

  /** `bulk_serve` files the same. */
  lemma {:induction false} BulkFiles(t: Tables, seen: set<Event>, events: seq<Event>, batchId: int)
    requires Mirrors(t, seen) && AllValid(seen) && AllValid(EventSet(events))
    requires EmptyTripHarmless(t, EventSet(events)) && NothingDropped(t, events, batchId)
    ensures Files(t, EventSet(events), ConflictIds(t, EventSet(events)), BadTrips(t, EventSet(events)), Bulk(t, events, batchId).conflicts)
  {
    hide *;
    var batch := EventSet(events);
    var ids, trips, moreIds, moreTrips := ConflictIds(t, batch), BadTrips(t, batch), BulkIds(t, batch), BulkTrips(t, batch);
    var rows := Rejected(t, events, batchId, moreIds, moreTrips);
    BulkConflictsAre(t, events, batchId);
    RejectedRecordsCopies(t, events, batchId, moreIds, moreTrips);
    BulkSetsExceedByRecorded(t, batch);
    BulkIdsBetween(t, batch);
    NothingDroppedMeans(t, events, batchId);
    forall trip | trip in t.trips && trip in trips ensures trip in moreTrips && trip in TripScope(t, batch) {
      StoredTripIsUnrecorded(t, seen, trip);
      BlockedStoredTripIsInScope(t, seen, batch, trip);
    }
    var after := rows + t.conflicts;
    BatchIsEvents(events);
    forall e | e in batch && Rejects(ids, trips, e) ensures Posted(after, e) {
      RejectsMore(t, batch, moreIds, moreTrips, e);
      RejectedCopyIsPosted(t, events, batchId, moreIds, moreTrips, rows, after, e);
    }
    RestIsFiled(t, events, batchId, ids, trips, moreIds, moreTrips, rows, after);
    FilesMeans(t, batch, ids, trips, after);
  }

  lemma BatchIsEvents(events: seq<Event>)
    ensures forall e :: e in EventSet(events) <==> e in events
  {}

  /** An event rejected for an empty trip id is rejected for its own id as well. */
  lemma RejectsMore(t: Tables, batch: set<Event>, moreIds: set<string>, moreTrips: set<string>, e: Event)
    requires EmptyTripHarmless(t, batch) && ConflictIds(t, batch) <= moreIds && BadTrips(t, batch) - {""} <= moreTrips
    requires e in batch && Rejects(ConflictIds(t, batch), BadTrips(t, batch), e)
    ensures Rejects(moreIds, moreTrips, e)
  {
    hide ConflictIds, BadTrips;
  }

  lemma RejectedCopyIsPosted(t: Tables, events: seq<Event>, batchId: int, ids: set<string>, trips: set<string>,
                             rows: Conflicts, after: Conflicts, e: Event)
    requires RecordsCopies(t, events, batchId, ids, trips, rows) && e in events && Rejects(ids, trips, e)
    requires forall k :: k in rows ==> k in after && after[k] == rows[k]
    ensures Posted(after, e)
  {
    assert CopyRecorded(rows, batchId, e);
    var i: nat :| ConflictKey(batchId, e.id, CopyConflict(i)) in rows && rows[ConflictKey(batchId, e.id, CopyConflict(i))] == ConflictOf(e);
    assert ConflictKey(batchId, e.id, CopyConflict(i)) in after;
  }

  lemma RestIsFiled(t: Tables, events: seq<Event>, batchId: int, ids: set<string>, trips: set<string>,
                    moreIds: set<string>, moreTrips: set<string>, rows: Conflicts, after: Conflicts)
    requires RecordsCopies(t, events, batchId, moreIds, moreTrips, rows)
    requires forall k :: k in rows ==> k in after && after[k] == rows[k]
    requires ids <= moreIds && forall id :: id in ids ==> exists e :: e in EventSet(events) && e.id == id
    requires forall trip :: trip in t.trips && trip in trips ==> trip in moreTrips && trip in TripScope(t, EventSet(events))
    ensures forall k :: k in t.keys && k in ids ==> KnownFiled(after, k, t.keys[k])
    ensures forall trip :: trip in t.trips && trip in trips ==> WithdrawnFiled(after, trip, t.trips[trip])
  {
    hide TripScope;
    PriorIdIsInjective();
    forall k | k in t.keys && k in ids ensures KnownFiled(after, k, t.keys[k]) {
      var e :| e in EventSet(events) && e.id == k;
      assert ConflictKey(batchId, e.id, PriorEventConflict) in after;
    }
    forall trip | trip in t.trips && trip in trips ensures WithdrawnFiled(after, trip, t.trips[trip]) {
      var k := ConflictKey(batchId, PriorId(trip), PriorTripConflict);
      assert k in rows && CopyRow(t, events, moreIds, moreTrips, k, rows[k]);
      assert k in after;
    }
  }

  /* ---- what a batch keeps ---- */

  lemma {:induction false} KeyedOrPosted(
    t: Tables, seen: set<Event>, batch: set<Event>, ids: set<string>, trips: set<string>, after: Tables, batchId: int)
    requires DaysMirror(t, seen) && Blocks(t, seen, batch, ids, trips) && Files(t, batch, ids, trips, after.conflicts)
    requires OnePerId(Accepted(t.keys, batch, ids, trips)) && CompletionsAgree(Accepted(t.keys, batch, ids, trips))
    requires after == After(t, batch, ids, trips, after.conflicts, batchId)
    ensures forall e :: e in seen + batch ==> Keyed(after.keys, e) || Posted(after.conflicts, e)
  {
    hide BadId, BadTrip;
    var accepted := Accepted(t.keys, batch, ids, trips);
    forall e | e in seen + batch ensures Keyed(after.keys, e) || Posted(after.conflicts, e) {
      if e in batch {
        if !Rejects(ids, trips, e) && e.id !in t.keys {
          assert e in accepted;
          AcceptedIsKeyed(accepted, t.keys, batchId, e);
        }
      } else {
        StaysKeyedOrPosted(t, accepted, batchId, after.conflicts, e);
      }
    }
  }

  lemma AcceptedIsKeyed(accepted: set<Event>, keys: Keys, batchId: int, e: Event)
    requires OnePerId(accepted) && e in accepted && e.id !in keys
    ensures Keyed(NewKeys(accepted, batchId) + keys, e)
  {
    assert NewKeys(accepted, batchId)[e.id] == KeyOf(e, batchId);
  }

  lemma StaysKeyedOrPosted(t: Tables, accepted: set<Event>, batchId: int, after: Conflicts, e: Event)
    requires OnePerId(accepted) && (Keyed(t.keys, e) || Posted(t.conflicts, e))
    requires forall k :: k in t.conflicts ==> k in after && after[k] == t.conflicts[k]
    ensures Keyed(NewKeys(accepted, batchId) + t.keys, e) || Posted(after, e)
  {
    hide NewKeys;
    if Posted(t.conflicts, e) {
      var k :| k in t.conflicts && k.eventId == e.id && t.conflicts[k] == ConflictOf(e);
      assert k in after;
    }
  }

  lemma {:induction false} BadIdsStayNamed(t: Tables, seen: set<Event>, batch: set<Event>, ids: set<string>, trips: set<string>, after: Conflicts)
    requires Mirrors(t, seen) && DaysMirror(t, seen) && Blocks(t, seen, batch, ids, trips) && Files(t, batch, ids, trips, after)
    ensures forall e :: e in seen + batch && BadId(seen + batch, e.id) ==> NamedOnDay(after, e)
  {
    hide BadId, BadTrip;
    forall e | e in seen + batch && BadId(seen + batch, e.id) ensures NamedOnDay(after, e) {
      if e in batch {
        assert Posted(after, e);
      } else if BadId(seen, e.id) {
        var k :| k in t.conflicts && k.eventId == e.id && t.conflicts[k].day == DayOf(e.ts) && t.conflicts[k].vehicle == e.vehicle;
        assert k in after;
      } else if Keyed(t.keys, e) {
        assert t.keys[e.id] == KeyOf(e, t.keys[e.id].batch);
        assert KnownFiled(after, e.id, t.keys[e.id]);
      } else {
        var k :| k in t.conflicts && k.eventId == e.id && t.conflicts[k] == ConflictOf(e);
        assert k in after;
      }
    }
  }

  lemma {:induction false} BadTripsStayCarried(
    t: Tables, seen: set<Event>, batch: set<Event>, ids: set<string>, trips: set<string>, after: Conflicts)
    requires Mirrors(t, seen) && DaysMirror(t, seen) && Blocks(t, seen, batch, ids, trips) && Files(t, batch, ids, trips, after)
    ensures forall e :: e in seen + batch && e.completed && HasBadTrip(seen + batch, e) ==> TripOnDay(after, e)
  {
    hide BadTrip;
    forall e | e in seen + batch && e.completed && HasBadTrip(seen + batch, e) ensures TripOnDay(after, e) {
      if e in batch {
        assert Posted(after, e);
      } else if HasBadTrip(seen, e) {
        var k :| k in t.conflicts && t.conflicts[k].trip == e.trip && t.conflicts[k].day == DayOf(e.ts) && t.conflicts[k].vehicle == e.vehicle;
        assert k in after;
      } else {
        OfGoodTripIsLive(seen, e);
        assert WithdrawnFiled(after, e.trip.value, t.trips[e.trip.value]);
      }
    }
  }

  lemma OfGoodTripIsLive(seen: set<Event>, e: Event)
    requires e in seen && e.trip.Some? && !BadTrip(seen, e.trip.value)
    ensures Live(seen, e)
  {
    assert !Tainted(seen, e.trip.value);
  }

  lemma {:induction false} BatchKeepsDays(
    t: Tables, seen: set<Event>, batch: set<Event>, ids: set<string>, trips: set<string>, after: Tables, batchId: int)
    requires Mirrors(t, seen) && DaysMirror(t, seen) && Blocks(t, seen, batch, ids, trips) && Files(t, batch, ids, trips, after.conflicts)
    requires OnePerId(Accepted(t.keys, batch, ids, trips)) && CompletionsAgree(Accepted(t.keys, batch, ids, trips))
    requires after == After(t, batch, ids, trips, after.conflicts, batchId)
    ensures DaysMirror(after, seen + batch)
  {
    KeyedOrPosted(t, seen, batch, ids, trips, after, batchId);
    BadIdsStayNamed(t, seen, batch, ids, trips, after.conflicts);
    BadTripsStayCarried(t, seen, batch, ids, trips, after.conflicts);
    hide Mirrors, Blocks, Files, BadId, HasBadTrip, Keyed, Posted, NamedOnDay, TripOnDay, Accepted, After;
  }

  /* ---- whole runs ---- */

  /** Row-by-row batches drop no row. Staged merges need no condition. */
  ghost predicate DropsNothing(ds: seq<Delivery>)
    requires Wellformed(ds)
  {
    ds == [] ||
    var before, d := ds[..|ds| - 1], ds[|ds| - 1];
    DropsNothing(before) && (d.Copied? ==> NothingDropped(Run(before), d.events, d.batchId))
  }

  lemma {:induction false} DeliverKeepsDays(t: Tables, seen: set<Event>, d: Delivery, topic: Topic)
    requires Mirrors(t, seen) && DaysMirror(t, seen) && ReasonsDetermined(t.keys, t.conflicts, topic)
    requires AllValid(seen) && AllValid(Delivered(d))
    requires d.Staged? ==> FromTopic(d.rows, topic)
    requires d.Copied? ==> Harmless(t, d.events, d.batchId) && NothingDropped(t, d.events, d.batchId)
    ensures DaysMirror(Deliver(t, d), seen + Delivered(d))
  {
    var batch := Delivered(d);
    var ids, trips := ConflictIds(t, batch), BadTrips(t, batch);
    StageBlocks(t, seen, batch);
    DeliverMeans(t, d);
    hide Mirrors, DaysMirror, ReasonsDetermined, Blocks, Files, ConflictIds, BadTrips, Merge, Bulk, After, Accepted, AllValid,
      OnePerId, CompletionsAgree, NothingDropped, LosesNoTrip, EmptyTripHarmless, Deliver;
    match d {
      case Staged(batchId, rows) =>
        MergeIsAfter(t, rows, batchId);
        MergeFiles(t, seen, rows, batchId, topic);
        BatchKeepsDays(t, seen, batch, ids, trips, Merge(t, rows, batchId), batchId);
      case Copied(batchId, events) =>
        BulkIsStagedBlocking(t, seen, events, batchId);
        BulkFiles(t, seen, events, batchId);
        BatchKeepsDays(t, seen, batch, ids, trips, Bulk(t, events, batchId), batchId);
    }
  }

  /** After every admissible run: a seen event with a bad id is named by a conflict row of its own day, and a seen
      completion of a bad trip has a row of its own day that carries the trip. */
  lemma {:induction false} RunFilesByDay(ds: seq<Delivery>, topic: Topic)
    requires Wellformed(ds) && Admissible(ds, topic) && DropsNothing(ds)
    ensures forall e :: e in Seen(ds) && BadId(Seen(ds), e.id) ==> NamedOnDay(Run(ds).conflicts, e)
    ensures forall e :: e in Seen(ds) && e.completed && HasBadTrip(Seen(ds), e) ==> TripOnDay(Run(ds).conflicts, e)
    ensures DaysMirror(Run(ds), Seen(ds))
  {
    if ds != [] {
      var before := ds[..|ds| - 1];
      RunFilesByDay(before, topic);
      RunMirrorsReference(before, topic);
      SeenIsValid(before);
      hide Mirrors, ReasonsDetermined, Harmless, NothingDropped, Deliver, AllValid, Delivered;
      DeliverKeepsDays(Run(before), Seen(before), ds[|ds| - 1], topic);
    }
  }
}
