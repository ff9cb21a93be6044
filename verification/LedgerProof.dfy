/**
 The incremental ledgers mirror the from-scratch reference after every merge,
 for any order, split or repetition of deliveries.
 */
module LedgerProof {
  import opened Events
  import opened Reference
  import opened Ledgers

  /* ---- the invariant: tables versus the set of events seen so far ---- */

  /** Identity rows are seen events, and every seen id is in the key or the conflict ledger. */
  ghost predicate KeysMirror(t: Tables, seen: set<Event>) {
    && (forall k :: k in t.keys ==>
          t.keys[k].fingerprint in seen && t.keys[k].fingerprint.id == k
          && t.keys[k] == KeyOf(t.keys[k].fingerprint, t.keys[k].batch))
    && (forall e :: e in seen ==> e.id in t.keys || e.id in ConflictedIds(t.conflicts))
  }

  /** Why a real id may appear in the conflict ledger. */
  ghost predicate Justified(seen: set<Event>, id: string) {
    || BadId(seen, id)
    || ((exists e :: e in seen && e.id == id) && forall e :: e in seen && e.id == id ==> HasBadTrip(seen, e))
  }

  ghost predicate ConflictsMirror(t: Tables, seen: set<Event>) {
    && (forall id :: id in ConflictedIds(t.conflicts) && !(PRIOR <= id) ==> Justified(seen, id))
    && (forall e :: e in seen && BadId(seen, e.id) ==> e.id in ConflictedIds(t.conflicts))
    && (forall trip :: trip in BlockedTrips(t.conflicts) <==> BadTrip(seen, trip))
  }

  /** The contribution table holds the live events, nothing else. */
  ghost predicate ContributionsMirror(t: Tables, seen: set<Event>) {
    && (forall e :: Live(seen, e) ==> e.id in t.contributions && t.contributions[e.id] == ContributionOf(e))
    && (forall k :: k in t.contributions ==>
          Live(seen, t.contributions[k].fingerprint) && t.contributions[k].fingerprint.id == k
          && k in t.keys)
  }

  /** The completed-trip table is the view over live completed events. */
  ghost predicate TripsMirror(t: Tables, seen: set<Event>) {
    && (forall e :: Live(seen, e) && e.completed ==> TripIn(e.trip, t.trips.Keys) && t.trips[e.trip.value] == SignatureOf(e))
    && (forall trip :: trip in t.trips ==> exists e :: Live(seen, e) && e.completed && e.trip == Some(trip))
  }

  ghost predicate Mirrors(t: Tables, seen: set<Event>) {
    KeysMirror(t, seen) && ConflictsMirror(t, seen) && ContributionsMirror(t, seen) && TripsMirror(t, seen)
  }

  /** Day and payload are a function of (event id, reason), trips withdrawn aside: what makes a dropped insert harmless. */
  ghost predicate ReasonDetermined(keys: Keys, topic: Topic, k: ConflictKey, c: Conflict) {
    match k.reason
    case StagedConflict(p) => p in topic && k.eventId == topic[p].id && c == ConflictOf(topic[p])
    case CopyConflict(_) => true
    case PriorEventConflict => k.eventId in keys && c == KnownConflict(keys[k.eventId])
    case PriorTripConflict => c.trip.Some? && k.eventId == PriorId(c.trip.value)
  }

  ghost predicate ReasonsDetermined(keys: Keys, conflicts: Conflicts, topic: Topic) {
    forall k :: k in conflicts ==> ReasonDetermined(keys, topic, k, conflicts[k])
  }

  ghost predicate FromTopic(rows: Topic, topic: Topic) {
    forall p :: p in rows ==> p in topic && rows[p] == topic[p]
  }

  /* ---- ON CONFLICT DO NOTHING loses no blocked trip, even when batch ids restart ---- */

  /** Every bad trip is carried by a rejected row of the batch or by a known copy of a conflicting id. */
  ghost predicate Carried(t: Tables, batch: set<Event>, ids: set<string>, trips: set<string>) {
    && (forall id :: id in ids ==> exists e :: e in batch && e.id == id)
    && (forall e :: e in batch && e.id in ids && e.trip.Some? ==> e.trip.value in trips)
    && (forall k :: k in t.keys && k in ids && t.keys[k].trip.Some? ==> t.keys[k].trip.value in trips)
    && (forall trip :: trip in trips ==>
          (exists e :: e in batch && e.trip == Some(trip)) || (exists k :: k in t.keys && k in ids && t.keys[k].trip == Some(trip)))
  }

  lemma StageIsCarried(t: Tables, batch: set<Event>)
    ensures Carried(t, batch, ConflictIds(t, batch), BadTrips(t, batch))
  {
    ConflictIdIsDelivered(t, batch);
    BadTripIsCarried(t, batch, ConflictIds(t, batch));
    hide ConflictIds, BlockedTrips, TripIn;
  }

  lemma ConflictIdIsDelivered(t: Tables, batch: set<Event>)
    ensures forall id :: id in ConflictIds(t, batch) ==> exists e :: e in batch && e.id == id
  {}

  lemma BadTripIsCarried(t: Tables, batch: set<Event>, ids: set<string>)
    ensures forall trip :: trip in StageBadTrips(t, batch, ids) ==>
              (exists e :: e in batch && e.trip == Some(trip)) || (exists k :: k in t.keys && k in ids && t.keys[k].trip == Some(trip))
  {
    hide BlockedTrips;
  }

  /** What the three INSERTs leave in the table, row by row. */
  ghost predicate Records(t: Tables, rows: Topic, batchId: int, ids: set<string>, trips: set<string>, after: Conflicts) {
    && (forall k :: k in t.conflicts ==> k in after && after[k] == t.conflicts[k])
    && (forall p :: p in rows && Rejects(ids, trips, rows[p]) ==> ConflictKey(batchId, rows[p].id, StagedConflict(p)) in after)
    && (forall k :: k in t.keys && k in ids ==> ConflictKey(batchId, k, PriorEventConflict) in after)
    && (forall trip :: trip in t.trips && trip in trips ==> ConflictKey(batchId, PriorId(trip), PriorTripConflict) in after)
    && (forall k :: k in after && k !in t.conflicts ==> NewRow(t, rows, ids, trips, k, after[k]))
  }

  ghost predicate NewRow(t: Tables, rows: Topic, ids: set<string>, trips: set<string>, k: ConflictKey, c: Conflict) {
    match k.reason
    case StagedConflict(p) => p in rows && k.eventId == rows[p].id && Rejects(ids, trips, rows[p]) && c == ConflictOf(rows[p])
    case CopyConflict(_) => false
    case PriorEventConflict => k.eventId in t.keys && k.eventId in ids && c == KnownConflict(t.keys[k.eventId])
    case PriorTripConflict => TripIn(c.trip, t.trips.Keys) && c.trip.value in trips && k.eventId == PriorId(c.trip.value)
                              && c == WithdrawnConflict(c.trip.value, t.trips[c.trip.value])
  }

  lemma StagedRows(t: Tables, rows: Topic, batchId: int, ids: set<string>, trips: set<string>)
    ensures var staged := StagedConflicts(rows, batchId, ids, trips);
            && (forall p :: p in rows && Rejects(ids, trips, rows[p]) ==> ConflictKey(batchId, rows[p].id, StagedConflict(p)) in staged)
            && (forall k :: k in staged ==> NewRow(t, rows, ids, trips, k, staged[k]))
  {}

  lemma PriorEventRows(t: Tables, rows: Topic, batchId: int, ids: set<string>, trips: set<string>)
    ensures var prior := PriorEventConflicts(t.keys, batchId, ids);
            && (forall k :: k in t.keys && k in ids ==> ConflictKey(batchId, k, PriorEventConflict) in prior)
            && (forall k :: k in prior ==> NewRow(t, rows, ids, trips, k, prior[k]))
  {}

  lemma PriorTripRows(t: Tables, rows: Topic, batchId: int, ids: set<string>, trips: set<string>)
    ensures var prior := PriorTripConflicts(t.trips, batchId, trips);
            && (forall trip :: trip in t.trips && trip in trips ==> ConflictKey(batchId, PriorId(trip), PriorTripConflict) in prior)
            && (forall k :: k in prior ==> NewRow(t, rows, ids, trips, k, prior[k]))
  {}

  /** One INSERT ... ON CONFLICT DO NOTHING keeps every old row and adds only rows it was given. */
  lemma InsertKeeps(before: Conflicts, rows: Conflicts)
    ensures var after := rows + before;
            && after.Keys == rows.Keys + before.Keys
            && (forall k :: k in before ==> after[k] == before[k])
            && (forall k :: k in after && k !in before ==> k in rows && after[k] == rows[k])
  {}

  lemma RecordConflictsRecords(t: Tables, rows: Topic, batchId: int, ids: set<string>, trips: set<string>)
    ensures Records(t, rows, batchId, ids, trips, RecordConflicts(t, rows, batchId, ids, trips))
  {
    StagedRows(t, rows, batchId, ids, trips);
    PriorEventRows(t, rows, batchId, ids, trips);
    PriorTripRows(t, rows, batchId, ids, trips);
    InsertsRecord(t, rows, batchId, ids, trips, StagedConflicts(rows, batchId, ids, trips),
                  PriorEventConflicts(t.keys, batchId, ids), PriorTripConflicts(t.trips, batchId, trips));
  }

  lemma InsertsRecord(t: Tables, rows: Topic, batchId: int, ids: set<string>, trips: set<string>,
                      staged: Conflicts, priorEvents: Conflicts, priorTrips: Conflicts)
    requires forall p :: p in rows && Rejects(ids, trips, rows[p]) ==> ConflictKey(batchId, rows[p].id, StagedConflict(p)) in staged
    requires forall k :: k in staged ==> NewRow(t, rows, ids, trips, k, staged[k])
    requires forall k :: k in t.keys && k in ids ==> ConflictKey(batchId, k, PriorEventConflict) in priorEvents
    requires forall k :: k in priorEvents ==> NewRow(t, rows, ids, trips, k, priorEvents[k])
    requires forall trip :: trip in t.trips && trip in trips ==> ConflictKey(batchId, PriorId(trip), PriorTripConflict) in priorTrips
    requires forall k :: k in priorTrips ==> NewRow(t, rows, ids, trips, k, priorTrips[k])
    ensures Records(t, rows, batchId, ids, trips, priorTrips + (priorEvents + (staged + t.conflicts)))
  {
    var first := staged + t.conflicts;
    var second := priorEvents + first;
    InsertKeeps(t.conflicts, staged);
    InsertKeeps(first, priorEvents);
    InsertKeeps(second, priorTrips);
  }

  lemma BadTripIsRecorded(
    t: Tables, rows: Topic, batchId: int, ids: set<string>, trips: set<string>, after: Conflicts, topic: Topic, trip: string)
    requires ReasonsDetermined(t.keys, after, topic) && FromTopic(rows, topic)
    requires Carried(t, rows.Values, ids, trips) && Records(t, rows, batchId, ids, trips, after) && trip in trips
    ensures trip in BlockedTrips(after)
  {
    if e :| e in rows.Values && e.trip == Some(trip) {
      var p :| p in rows && rows[p] == e;
      assert after[ConflictKey(batchId, rows[p].id, StagedConflict(p))].trip == Some(trip);
    } else {
      var k :| k in t.keys && k in ids && t.keys[k].trip == Some(trip);
      assert after[ConflictKey(batchId, k, PriorEventConflict)].trip == Some(trip);
    }
  }

  /** After a merge exactly the bad trips of the batch have been added to the blocked trips. */
  lemma {:induction false} NoBlockedTripIsLost(
    t: Tables, rows: Topic, batchId: int, ids: set<string>, trips: set<string>, after: Conflicts, topic: Topic)
    requires ReasonsDetermined(t.keys, after, topic) && FromTopic(rows, topic)
    requires Carried(t, rows.Values, ids, trips)
    requires Records(t, rows, batchId, ids, trips, after)
    ensures BlockedTrips(after) == BlockedTrips(t.conflicts) + trips
  {
    forall trip | trip in BlockedTrips(t.conflicts) ensures trip in BlockedTrips(after) {
      var k :| k in t.conflicts && t.conflicts[k].trip == Some(trip);
      assert k in after;
    }
    forall trip | trip in trips ensures trip in BlockedTrips(after) {
      BadTripIsRecorded(t, rows, batchId, ids, trips, after, topic, trip);
    }
    forall trip | trip in BlockedTrips(after) ensures trip in BlockedTrips(t.conflicts) + trips {
      var k :| k in after && after[k].trip == Some(trip);
      if k !in t.conflicts {
        assert NewRow(t, rows, ids, trips, k, after[k]);
        if k.reason.StagedConflict? {
          assert rows[k.reason.at] in rows.Values;
        }
      }
    }
  }

  /** The ids a merge adds to the conflict ledger: rejected events, and trips it withdraws. */
  function RejectedIds(t: Tables, batch: set<Event>, ids: set<string>, trips: set<string>): set<string> {
    (set e | e in batch && Rejects(ids, trips, e) :: e.id)
    + (set trip | trip in t.trips && trip in trips :: PriorId(trip))
  }

  lemma {:induction false} ConflictedIdsAfterMerge(
    t: Tables, rows: Topic, batchId: int, ids: set<string>, trips: set<string>, after: Conflicts)
    requires Carried(t, rows.Values, ids, trips)
    requires Records(t, rows, batchId, ids, trips, after)
    ensures ConflictedIds(after) == ConflictedIds(t.conflicts) + RejectedIds(t, rows.Values, ids, trips)
  {
    forall id | id in ConflictedIds(t.conflicts) ensures id in ConflictedIds(after) {
      var k :| k in t.conflicts && k.eventId == id;
      assert k in after;
    }
    forall id | id in RejectedIds(t, rows.Values, ids, trips) ensures id in ConflictedIds(after) {
      if e :| e in rows.Values && Rejects(ids, trips, e) && e.id == id {
        var p :| p in rows && rows[p] == e;
        assert ConflictKey(batchId, rows[p].id, StagedConflict(p)) in after;
      } else {
        var trip :| trip in t.trips && trip in trips && id == PriorId(trip);
        assert ConflictKey(batchId, PriorId(trip), PriorTripConflict) in after;
      }
    }
    forall id | id in ConflictedIds(after) ensures id in ConflictedIds(t.conflicts) + RejectedIds(t, rows.Values, ids, trips) {
      var k :| k in after && k.eventId == id;
      if k in t.conflicts {
      } else {
        assert NewRow(t, rows, ids, trips, k, after[k]);
        if k.reason.PriorEventConflict? {
          var e :| e in rows.Values && e.id == id;
          assert Rejects(ids, trips, e);
        } else if k.reason.StagedConflict? {
          assert rows[k.reason.at] in rows.Values;
        }
      }
    }
  }

  lemma {:induction false} ReasonsStayDetermined(
    t: Tables, rows: Topic, batchId: int, ids: set<string>, trips: set<string>, keys: Keys, after: Conflicts, topic: Topic)
    requires ReasonsDetermined(t.keys, t.conflicts, topic) && FromTopic(rows, topic)
    requires Records(t, rows, batchId, ids, trips, after)
    requires forall k :: k in t.keys ==> k in keys && keys[k] == t.keys[k]
    ensures ReasonsDetermined(keys, after, topic)
  {
    forall k | k in after && k !in t.conflicts ensures ReasonDetermined(keys, topic, k, after[k]) {
      assert NewRow(t, rows, ids, trips, k, after[k]);
    }
    forall k | k in t.conflicts ensures ReasonDetermined(keys, topic, k, after[k]) {
      assert ReasonDetermined(t.keys, topic, k, t.conflicts[k]);
    }
  }
}
