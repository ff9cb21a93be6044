/**
 `bulk_serve` on the identity ledgers: the row-by-row form of the merge. It looks
 up larger sets of blocked ids and trips, and yet leaves the same identities behind.
 */
module BulkLedgers {
  import opened Events
  import opened Reference
  import opened Ledgers
  import opened LedgerProof
  import opened MergeProof

  /** A trip id that counts as present in Python: neither null nor the empty string. */
  predicate Truthy(trip: Option<string>) {
    trip.Some? && trip.value != ""
  }

  /* ---- the lookups ---- */

  /** Trips named by the batch or by stored copies of its ids. */
  function TripScope(t: Tables, batch: set<Event>): set<string> {
    (set e | e in batch && Truthy(e.trip) :: e.trip.value)
    + (set e | e in batch && e.id in t.keys && Truthy(t.keys[e.id].trip) :: t.keys[e.id].trip.value)
  }

  predicate Hit(t: Tables, batch: set<Event>, k: ConflictKey)
    requires k in t.conflicts
  {
    (exists e :: e in batch && e.id == k.eventId) || TripIn(t.conflicts[k].trip, TripScope(t, batch))
  }

  function BlockedEventHits(t: Tables, batch: set<Event>): set<string> {
    set k | k in t.conflicts && Hit(t, batch, k) :: k.eventId
  }

  function BlockedTripHits(t: Tables, batch: set<Event>): set<string> {
    set k | k in t.conflicts && Hit(t, batch, k) && Truthy(t.conflicts[k].trip) :: t.conflicts[k].trip.value
  }

  /** `conflicting_ids`: also ids outside the batch that conflict rows of its trips name. */
  function BulkIds(t: Tables, batch: set<Event>): set<string> {
    (set a, b | a in batch && b in batch && a.id == b.id && a != b :: a.id)
    + (set e | e in batch && e.id in t.keys && t.keys[e.id].fingerprint != e :: e.id)
    + BlockedEventHits(t, batch)
  }

  /** `bad_trips`, given the conflicting ids */
  function BulkTripsFor(t: Tables, batch: set<Event>, ids: set<string>): set<string> {
    (set a, b | a in batch && b in batch && a.completed && b.completed && a.trip.Some? && a.trip == b.trip
                && SignatureOf(a) != SignatureOf(b) :: a.trip.value)
    + (set e | e in batch && e.completed && TripIn(e.trip, t.trips.Keys) && e.trip.value in TripScope(t, batch)
                && SignatureOf(e) != t.trips[e.trip.value] :: e.trip.value)
    + BlockedTripHits(t, batch)
    + (set e | e in batch && e.id in ids && Truthy(e.trip) :: e.trip.value)
    + (set e | e in batch && e.id in ids && e.id in t.keys && Truthy(t.keys[e.id].trip) :: t.keys[e.id].trip.value)
  }

  function BulkTrips(t: Tables, batch: set<Event>): set<string> {
    BulkTripsFor(t, batch, BulkIds(t, batch))
  }

  /* ---- the rejected rows ---- */

  /** `by_id[id]`: the copies of one id in batch order. */
  function Copies(events: seq<Event>, id: string): (r: seq<Event>)
    ensures forall e :: e in r <==> e in events && e.id == id
  {
    if events == [] then []
    else
      var most, e := events[..|events| - 1], events[|events| - 1];
      assert events == most + [e];
      if e.id == id then Copies(most, id) + [e] else Copies(most, id)
  }

  /** One row per copy of every rejected id in `of`, told apart by the copy's index. */
  function CopyConflictsOf(events: seq<Event>, batchId: int, ids: set<string>, trips: set<string>, of: set<string>): Conflicts {
    map id, i | id in of && 0 <= i < |Copies(events, id)| && Rejects(ids, trips, Copies(events, id)[i]) ::
      ConflictKey(batchId, id, CopyConflict(i)) := ConflictOf(Copies(events, id)[i])
  }

  function CopyConflicts(events: seq<Event>, batchId: int, ids: set<string>, trips: set<string>): Conflicts {
    CopyConflictsOf(events, batchId, ids, trips, IdsOf(EventSet(events)))
  }

  /** The keys and trips the lookups return; rejected rows are built from these. */
  function KnownKeys(t: Tables, batch: set<Event>): Keys {
    map k | k in t.keys && (exists e :: e in batch && e.id == k) :: t.keys[k]
  }

  function KnownTrips(t: Tables, batch: set<Event>): Trips {
    map trip | trip in t.trips && trip in TripScope(t, batch) :: t.trips[trip]
  }

  /** All rejected rows; their keys are distinct, so their order does not matter. */
  function Rejected(t: Tables, events: seq<Event>, batchId: int, ids: set<string>, trips: set<string>): Conflicts {
    var batch := EventSet(events);
    PriorEventConflicts(KnownKeys(t, batch), batchId, ids)
    + CopyConflicts(events, batchId, ids, trips)
    + PriorTripConflicts(KnownTrips(t, batch), batchId, trips)
  }

  lemma BulkAcceptedIsCoherent(t: Tables, batch: set<Event>)
    requires AllValid(batch)
    ensures var accepted := Accepted(t.keys, batch, BulkIds(t, batch), BulkTrips(t, batch));
            OnePerId(accepted) && CompletionsAgree(accepted)
  {}

  function Bulk(t: Tables, events: seq<Event>, batchId: int): Tables
    requires AllValid(EventSet(events))
  {
    var batch := EventSet(events);
    var ids, trips := BulkIds(t, batch), BulkTrips(t, batch);
    BulkAcceptedIsCoherent(t, batch);
    After(t, batch, ids, trips, Rejected(t, events, batchId, ids, trips) + t.conflicts, batchId)
  }

  /* ---- the blocking sets against the staged ones ---- */

  /** The row-by-row sets never hold the empty trip; otherwise they exceed the staged ones only by ids and trips that are
      already in the conflict ledger. */
  lemma {:induction false} BulkSetsExceedByRecorded(t: Tables, batch: set<Event>)
    requires AllValid(batch)
    ensures ConflictIds(t, batch) <= BulkIds(t, batch) <= ConflictIds(t, batch) + ConflictedIds(t.conflicts)
    ensures BadTrips(t, batch) - {""} <= BulkTrips(t, batch) <= BadTrips(t, batch) + BlockedTrips(t.conflicts)
    ensures "" !in BulkTrips(t, batch)
  {
    BulkIdsBetween(t, batch);
    BulkTripsBetween(t, batch, ConflictIds(t, batch), BulkIds(t, batch));
  }

  lemma {:induction false} BulkIdsBetween(t: Tables, batch: set<Event>)
    ensures ConflictIds(t, batch) <= BulkIds(t, batch) <= ConflictIds(t, batch) + ConflictedIds(t.conflicts)
    ensures forall e :: e in batch ==> (e.id in ConflictIds(t, batch) <==> e.id in BulkIds(t, batch))
    ensures forall id :: id in ConflictIds(t, batch) ==> exists e :: e in batch && e.id == id
  {
    forall e | e in batch && e.id in ConflictedIds(t.conflicts) ensures e.id in BlockedEventHits(t, batch) {
      var k :| k in t.conflicts && k.eventId == e.id;
      assert Hit(t, batch, k);
    }
  }

  lemma {:induction false} BulkTripsBetween(t: Tables, batch: set<Event>, ids: set<string>, bulk: set<string>)
    requires AllValid(batch)
    requires forall e :: e in batch ==> (e.id in ids <==> e.id in bulk)
    requires forall id :: id in ids ==> exists e :: e in batch && e.id == id
    ensures StageBadTrips(t, batch, ids) - {""} <= BulkTripsFor(t, batch, bulk) <= StageBadTrips(t, batch, ids) + BlockedTrips(t.conflicts)
    ensures "" !in BulkTripsFor(t, batch, bulk)
  {
    forall trip | trip in StageBadTrips(t, batch, ids) && trip != "" ensures trip in BulkTripsFor(t, batch, bulk) {
      var c := BadTripHasCause(t, batch, ids, trip);
      CauseIsSeenInBulk(t, batch, ids, bulk, trip, c);
    }
    NoEmptyBulkTrip(t, batch, bulk);
    forall trip | trip in BulkTripsFor(t, batch, bulk) ensures trip in StageBadTrips(t, batch, ids) + BlockedTrips(t.conflicts) {}
  }

  lemma NoEmptyBulkTrip(t: Tables, batch: set<Event>, bulk: set<string>)
    requires AllValid(batch)
    ensures "" !in BulkTripsFor(t, batch, bulk)
  {}

  lemma {:induction false} CauseIsSeenInBulk(
    t: Tables, batch: set<Event>, ids: set<string>, bulk: set<string>, trip: string, c: Cause)
    requires forall e :: e in batch ==> (e.id in ids <==> e.id in bulk)
    requires forall id :: id in ids ==> exists e :: e in batch && e.id == id
    requires Causes(t, batch, ids, trip, c) && trip != ""
    ensures trip in BulkTripsFor(t, batch, bulk)
  {
    match c {
      case StagedPair(a, b) =>
      case Stored(e) => assert e.trip.value in TripScope(t, batch);
      case Staged(e) =>
      case Known(k) =>
        var e :| e in batch && e.id == k;
        assert Truthy(t.keys[e.id].trip);
      case Blocked =>
        var e :| e in batch && e.trip == Some(trip);
        assert trip in TripScope(t, batch);
        var k :| k in t.conflicts && t.conflicts[k].trip == Some(trip);
        assert Hit(t, batch, k);
        assert trip in BlockedTripHits(t, batch);
    }
  }

  /* ---- the effect on keys, trips and contributions ---- */

  /** Nothing hangs on an empty trip id: either it is not bad, or every event that carries it, delivered now or
      contributing already, is withdrawn through its own id anyway. */
  predicate EmptyTripHarmless(t: Tables, batch: set<Event>) {
    "" in BadTrips(t, batch) ==>
      && (forall e :: e in batch && e.trip == Some("") ==> e.id in ConflictIds(t, batch))
      && (forall k :: k in t.contributions && t.contributions[k].trip == Some("") ==> k in ConflictIds(t, batch))
  }

  /** Larger or smaller blocking sets have the same effect when they reject the same events. */
  lemma SameEffect(t: Tables, batch: set<Event>, ids: set<string>, trips: set<string>, moreIds: set<string>, moreTrips: set<string>)
    requires forall e :: e in batch ==> (Rejects(moreIds, moreTrips, e) <==> Rejects(ids, trips, e))
    requires forall k :: k in t.contributions ==>
               (k in moreIds || TripIn(t.contributions[k].trip, moreTrips) <==> k in ids || TripIn(t.contributions[k].trip, trips))
    requires forall trip :: trip in t.trips ==> (trip in moreTrips <==> trip in trips)
    ensures Accepted(t.keys, batch, moreIds, moreTrips) == Accepted(t.keys, batch, ids, trips)
    ensures WithoutEvents(t.contributions, moreIds, moreTrips) == WithoutEvents(t.contributions, ids, trips)
    ensures WithoutTrips(t.trips, moreTrips) == WithoutTrips(t.trips, trips)
    ensures RejectedIds(t, batch, moreIds, moreTrips) == RejectedIds(t, batch, ids, trips)
  {}

  /** With a harmless empty trip `bulk_serve` accepts, retracts and withdraws what the staged merge does. */
  lemma {:induction false} ExtraBlockingIsHarmless(
    t: Tables, seen: set<Event>, batch: set<Event>, ids: set<string>, trips: set<string>, moreIds: set<string>, moreTrips: set<string>)
    requires Mirrors(t, seen) && AllValid(seen)
    requires ids <= moreIds <= ids + ConflictedIds(t.conflicts)
    requires trips - {""} <= moreTrips <= trips + BlockedTrips(t.conflicts) && "" !in moreTrips
    requires forall e :: e in batch && e.id in ConflictedIds(t.conflicts) ==> e.id in ids
    requires forall e :: e in batch && TripIn(e.trip, BlockedTrips(t.conflicts)) ==> e.trip.value in trips
    requires "" in trips ==> forall e :: e in batch && e.trip == Some("") ==> e.id in ids
    requires "" in trips ==> forall k :: k in t.contributions && t.contributions[k].trip == Some("") ==> k in ids
    ensures Accepted(t.keys, batch, moreIds, moreTrips) == Accepted(t.keys, batch, ids, trips)
    ensures WithoutEvents(t.contributions, moreIds, moreTrips) == WithoutEvents(t.contributions, ids, trips)
    ensures WithoutTrips(t.trips, moreTrips) == WithoutTrips(t.trips, trips)
    ensures RejectedIds(t, batch, moreIds, moreTrips) == RejectedIds(t, batch, ids, trips)
  {
    hide Live, BadTrip, BadId;
    forall e | e in batch ensures Rejects(moreIds, moreTrips, e) <==> Rejects(ids, trips, e) {}
    forall k | k in t.contributions
      ensures k in moreIds || TripIn(t.contributions[k].trip, moreTrips) <==> k in ids || TripIn(t.contributions[k].trip, trips)
    {
      ContributionIsUnrecorded(t, seen, k);
    }
    forall trip | trip in t.trips ensures trip in moreTrips <==> trip in trips {
      StoredTripIsUnrecorded(t, seen, trip);
    }
    SameEffect(t, batch, ids, trips, moreIds, moreTrips);
  }

  lemma ContributionIsUnrecorded(t: Tables, seen: set<Event>, k: string)
    requires Mirrors(t, seen) && AllValid(seen) && k in t.contributions
    ensures k !in ConflictedIds(t.conflicts) && !TripIn(t.contributions[k].trip, BlockedTrips(t.conflicts))
    ensures k in t.keys && !(PRIOR <= k)
  {
    LiveIsUnrecorded(t, seen, t.contributions[k].fingerprint);
    assert t.contributions[k] == ContributionOf(t.contributions[k].fingerprint);
  }

  lemma StoredTripIsUnrecorded(t: Tables, seen: set<Event>, trip: string)
    requires Mirrors(t, seen) && AllValid(seen) && trip in t.trips
    ensures trip !in BlockedTrips(t.conflicts) && trip != ""
  {
    var e :| Live(seen, e) && e.completed && e.trip == Some(trip);
    LiveIsUnrecorded(t, seen, e);
  }

  lemma {:induction false} LiveIsUnrecorded(t: Tables, seen: set<Event>, e: Event)
    requires ConflictsMirror(t, seen) && AllValid(seen) && Live(seen, e)
    ensures e.id !in ConflictedIds(t.conflicts) && !TripIn(e.trip, BlockedTrips(t.conflicts))
  {
    assert !Justified(seen, e.id);
  }

  /** What one rejected row of a row-by-row batch is. */
  ghost predicate CopyRow(t: Tables, events: seq<Event>, ids: set<string>, trips: set<string>, k: ConflictKey, c: Conflict) {
    match k.reason
    case StagedConflict(_) => false
    case CopyConflict(_) => exists e :: e in events && Rejects(ids, trips, e) && k.eventId == e.id && c == ConflictOf(e)
    case PriorEventConflict => k.eventId in t.keys && k.eventId in ids && c == KnownConflict(t.keys[k.eventId])
                               && exists e :: e in events && e.id == k.eventId
    case PriorTripConflict => TripIn(c.trip, t.trips.Keys) && c.trip.value in trips && k.eventId == PriorId(c.trip.value)
                              && c == WithdrawnConflict(c.trip.value, t.trips[c.trip.value])
  }

  lemma CopyRows(t: Tables, events: seq<Event>, batchId: int, ids: set<string>, trips: set<string>)
    ensures var rows := CopyConflicts(events, batchId, ids, trips);
            && (forall e :: e in events && Rejects(ids, trips, e) ==> CopyRecorded(rows, batchId, e))
            && (forall k :: k in rows ==> k.batch == batchId && k.reason.CopyConflict? && CopyRow(t, events, ids, trips, k, rows[k]))
  {
    forall e | e in events && Rejects(ids, trips, e) {
      RejectedCopyHasRow(events, batchId, ids, trips, e);
    }
    forall k | k in CopyConflicts(events, batchId, ids, trips) {
      RowIsOfCopy(t, events, batchId, ids, trips, k);
    }
  }

  lemma RejectedCopyHasRow(events: seq<Event>, batchId: int, ids: set<string>, trips: set<string>, e: Event)
    requires e in events && Rejects(ids, trips, e)
    ensures CopyRecorded(CopyConflicts(events, batchId, ids, trips), batchId, e)
  {
    var copies := Copies(events, e.id);
    assert e in copies;
    var i :| 0 <= i < |copies| && copies[i] == e;
    assert e in EventSet(events);
    assert ConflictKey(batchId, e.id, CopyConflict(i)) in CopyConflicts(events, batchId, ids, trips);
  }

  lemma RowIsOfCopy(t: Tables, events: seq<Event>, batchId: int, ids: set<string>, trips: set<string>, k: ConflictKey)
    requires k in CopyConflicts(events, batchId, ids, trips)
    ensures k.batch == batchId && k.reason.CopyConflict? && CopyRow(t, events, ids, trips, k, CopyConflicts(events, batchId, ids, trips)[k])
  {
    var id, i :| id in IdsOf(EventSet(events)) && 0 <= i < |Copies(events, id)| && Rejects(ids, trips, Copies(events, id)[i])
      && k == ConflictKey(batchId, id, CopyConflict(i));
    assert Copies(events, id)[i] in Copies(events, id);
  }

  ghost predicate CopyRecorded(rows: Conflicts, batchId: int, e: Event) {
    exists i: nat :: ConflictKey(batchId, e.id, CopyConflict(i)) in rows && rows[ConflictKey(batchId, e.id, CopyConflict(i))] == ConflictOf(e)
  }

  lemma KnownEventRows(t: Tables, events: seq<Event>, batchId: int, ids: set<string>, trips: set<string>)
    ensures var rows := PriorEventConflicts(KnownKeys(t, EventSet(events)), batchId, ids);
            && (forall e :: e in events && e.id in t.keys && e.id in ids ==>
                  ConflictKey(batchId, e.id, PriorEventConflict) in rows
                  && rows[ConflictKey(batchId, e.id, PriorEventConflict)] == KnownConflict(t.keys[e.id]))
            && (forall k :: k in rows ==> k.batch == batchId && k.reason.PriorEventConflict? && CopyRow(t, events, ids, trips, k, rows[k]))
  {}

  lemma KnownTripRows(t: Tables, events: seq<Event>, batchId: int, ids: set<string>, trips: set<string>)
    ensures var rows := PriorTripConflicts(KnownTrips(t, EventSet(events)), batchId, trips);
            && (forall trip :: trip in t.trips && trip in TripScope(t, EventSet(events)) && trip in trips ==>
                  ConflictKey(batchId, PriorId(trip), PriorTripConflict) in rows)
            && (forall k :: k in rows ==> k.batch == batchId && k.reason.PriorTripConflict? && CopyRow(t, events, ids, trips, k, rows[k]))
  {
    PriorIdIsInjective();
  }

  /** All rejected rows together: every rejected copy under its index, every known copy of a rejected id, every stored
      trip that is withdrawn, and nothing else. */
  ghost predicate RecordsCopies(
    t: Tables, events: seq<Event>, batchId: int, ids: set<string>, trips: set<string>, rows: Conflicts)
  {
    && (forall e :: e in events && Rejects(ids, trips, e) ==> CopyRecorded(rows, batchId, e))
    && (forall e :: e in events && e.id in t.keys && e.id in ids ==>
          ConflictKey(batchId, e.id, PriorEventConflict) in rows
          && rows[ConflictKey(batchId, e.id, PriorEventConflict)] == KnownConflict(t.keys[e.id]))
    && (forall trip :: trip in t.trips && trip in TripScope(t, EventSet(events)) && trip in trips ==>
          ConflictKey(batchId, PriorId(trip), PriorTripConflict) in rows)
    && (forall k :: k in rows ==> k.batch == batchId && CopyRow(t, events, ids, trips, k, rows[k]))
  }

  lemma RejectedRecordsCopies(t: Tables, events: seq<Event>, batchId: int, ids: set<string>, trips: set<string>)
    ensures RecordsCopies(t, events, batchId, ids, trips, Rejected(t, events, batchId, ids, trips))
  {
    hide RecordsCopies, CopyConflicts, PriorEventConflicts, PriorTripConflicts, KnownKeys, KnownTrips, TripScope, CopyRow, CopyRecorded, Rejects;
    CopyRows(t, events, batchId, ids, trips);
    KnownEventRows(t, events, batchId, ids, trips);
    KnownTripRows(t, events, batchId, ids, trips);
    DisjointRowsRecord(t, events, batchId, ids, trips, PriorEventConflicts(KnownKeys(t, EventSet(events)), batchId, ids),
                       CopyConflicts(events, batchId, ids, trips), PriorTripConflicts(KnownTrips(t, EventSet(events)), batchId, trips));
  }

  lemma DisjointRowsRecord(t: Tables, events: seq<Event>, batchId: int, ids: set<string>, trips: set<string>,
                           priorEvents: Conflicts, copies: Conflicts, priorTrips: Conflicts)
    requires forall e :: e in events && Rejects(ids, trips, e) ==> CopyRecorded(copies, batchId, e)
    requires forall e :: e in events && e.id in t.keys && e.id in ids ==>
               ConflictKey(batchId, e.id, PriorEventConflict) in priorEvents
               && priorEvents[ConflictKey(batchId, e.id, PriorEventConflict)] == KnownConflict(t.keys[e.id])
    requires forall trip :: trip in t.trips && trip in TripScope(t, EventSet(events)) && trip in trips ==>
               ConflictKey(batchId, PriorId(trip), PriorTripConflict) in priorTrips
    requires forall k :: k in priorEvents ==> k.batch == batchId && k.reason.PriorEventConflict? && CopyRow(t, events, ids, trips, k, priorEvents[k])
    requires forall k :: k in copies ==> k.batch == batchId && k.reason.CopyConflict? && CopyRow(t, events, ids, trips, k, copies[k])
    requires forall k :: k in priorTrips ==> k.batch == batchId && k.reason.PriorTripConflict? && CopyRow(t, events, ids, trips, k, priorTrips[k])
    ensures RecordsCopies(t, events, batchId, ids, trips, priorEvents + copies + priorTrips)
  {
    hide CopyRow, Rejects, TripScope;
    var rows := priorEvents + copies + priorTrips;
    DisjointUnion(priorEvents, copies, priorTrips);
    forall e | e in events && Rejects(ids, trips, e) ensures CopyRecorded(rows, batchId, e) {
      CopyStaysRecorded(copies, rows, batchId, e);
    }
  }

  lemma CopyStaysRecorded(rows: Conflicts, after: Conflicts, batchId: int, e: Event)
    requires CopyRecorded(rows, batchId, e)
    requires forall k :: k in rows ==> k in after && after[k] == rows[k]
    ensures CopyRecorded(after, batchId, e)
  {
    var i: nat :| ConflictKey(batchId, e.id, CopyConflict(i)) in rows
                  && rows[ConflictKey(batchId, e.id, CopyConflict(i))] == ConflictOf(e);
    assert ConflictKey(batchId, e.id, CopyConflict(i)) in after;
  }

  lemma DisjointUnion(a: Conflicts, b: Conflicts, c: Conflicts)
    requires a.Keys !! b.Keys !! c.Keys
    ensures var all := a + b + c;
            && all.Keys == a.Keys + b.Keys + c.Keys
            && (forall k :: k in a ==> all[k] == a[k])
            && (forall k :: k in b ==> all[k] == b[k])
            && (forall k :: k in c ==> all[k] == c[k])
  {}

  /** Whatever batch id is used, no rejected id is lost: the key that makes a row a duplicate names the id. */
  lemma {:induction false} BulkRecordsTheSameIds(
    t: Tables, events: seq<Event>, batchId: int, ids: set<string>, trips: set<string>, rows: Conflicts)
    requires RecordsCopies(t, events, batchId, ids, trips, rows)
    requires forall trip :: trip in t.trips && trip in trips ==> trip in TripScope(t, EventSet(events))
    ensures ConflictedIds(rows + t.conflicts) == ConflictedIds(t.conflicts) + RejectedIds(t, EventSet(events), ids, trips)
  {
    hide TripScope;
    var after := rows + t.conflicts;
    forall id | id in ConflictedIds(t.conflicts) ensures id in ConflictedIds(after) {
      var k :| k in t.conflicts && k.eventId == id;
      assert k in after;
    }
    forall id | id in RejectedIds(t, EventSet(events), ids, trips) ensures id in ConflictedIds(after) {
      if e :| e in EventSet(events) && Rejects(ids, trips, e) && e.id == id {
        assert CopyRecorded(rows, batchId, e);
        var i: nat :| ConflictKey(batchId, e.id, CopyConflict(i)) in rows
                      && rows[ConflictKey(batchId, e.id, CopyConflict(i))] == ConflictOf(e);
        assert ConflictKey(batchId, e.id, CopyConflict(i)) in after;
      } else {
        var trip :| trip in t.trips && trip in trips && id == PriorId(trip);
        assert ConflictKey(batchId, PriorId(trip), PriorTripConflict) in after;
      }
    }
    forall id | id in ConflictedIds(after)
      ensures id in ConflictedIds(t.conflicts) + RejectedIds(t, EventSet(events), ids, trips)
    {
      var k :| k in after && k.eventId == id;
      if k in t.conflicts {
      } else {
        assert CopyRow(t, events, ids, trips, k, rows[k]);
        CopyRowIsRejected(t, events, ids, trips, k, rows[k]);
      }
    }
  }

  lemma CopyRowIsRejected(t: Tables, events: seq<Event>, ids: set<string>, trips: set<string>, k: ConflictKey, c: Conflict)
    requires CopyRow(t, events, ids, trips, k, c)
    ensures k.eventId in RejectedIds(t, EventSet(events), ids, trips)
  {
    if k.reason.PriorEventConflict? {
      var e :| e in events && e.id == k.eventId;
      assert e in EventSet(events) && Rejects(ids, trips, e);
    } else if k.reason.CopyConflict? {
      var e :| e in events && Rejects(ids, trips, e) && k.eventId == e.id;
      assert e in EventSet(events);
    }
  }

  /** A stored trip that either form blocks lies inside the scope of the lookups. */
  lemma {:induction false} BlockedStoredTripIsInScope(t: Tables, seen: set<Event>, batch: set<Event>, trip: string)
    requires Mirrors(t, seen) && AllValid(seen) && AllValid(batch) && trip in t.trips && trip in BulkTrips(t, batch)
    ensures trip in TripScope(t, batch)
  {
    hide *;
    BulkSetsExceedByRecorded(t, batch);
    StoredTripIsUnrecorded(t, seen, trip);
    StageIsCarried(t, batch);
    CarriedIsInScope(t, batch, ConflictIds(t, batch), BadTrips(t, batch), trip);
  }

  lemma CarriedIsInScope(t: Tables, batch: set<Event>, ids: set<string>, trips: set<string>, trip: string)
    requires Carried(t, batch, ids, trips) && trip in trips && trip != ""
    ensures trip in TripScope(t, batch)
  {
    if e :| e in batch && e.trip == Some(trip) {
    } else {
      var k :| k in t.keys && k in ids && t.keys[k].trip == Some(trip);
      var e :| e in batch && e.id == k;
    }
  }

  lemma {:induction false} BulkConflictedIds(t: Tables, seen: set<Event>, events: seq<Event>, batchId: int)
    requires Mirrors(t, seen) && AllValid(seen) && AllValid(EventSet(events))
    ensures var batch := EventSet(events);
            ConflictedIds(Bulk(t, events, batchId).conflicts)
            == ConflictedIds(t.conflicts) + RejectedIds(t, batch, BulkIds(t, batch), BulkTrips(t, batch))
  {
    hide BulkIds, BulkTrips, Rejected, RejectedIds, ConflictedIds, TripScope, Mirrors, AllValid;
    var batch := EventSet(events);
    RejectedRecordsCopies(t, events, batchId, BulkIds(t, batch), BulkTrips(t, batch));
    forall trip | trip in t.trips && trip in BulkTrips(t, batch) ensures trip in TripScope(t, batch) {
      BlockedStoredTripIsInScope(t, seen, batch, trip);
    }
    BulkRecordsTheSameIds(t, events, batchId, BulkIds(t, batch), BulkTrips(t, batch),
                          Rejected(t, events, batchId, BulkIds(t, batch), BulkTrips(t, batch)));
  }

  /* ---- which bad trips get recorded ---- */

  /** A rejected row under a key that is not taken carries the trip. */
  ghost predicate NewlyRecorded(t: Tables, events: seq<Event>, batchId: int, trip: string) {
    UnderFreeKey(Rejected(t, events, batchId, BulkIds(t, EventSet(events)), BulkTrips(t, EventSet(events))), t.conflicts, trip)
  }

  /** Every bad trip that is not blocked yet is carried by a rejected row whose key is not taken. */
  ghost predicate LosesNoTrip(t: Tables, events: seq<Event>, batchId: int) {
    forall trip :: trip in BadTrips(t, EventSet(events)) && trip !in BlockedTrips(t.conflicts) ==> NewlyRecorded(t, events, batchId, trip)
  }

  lemma BulkConflictsAre(t: Tables, events: seq<Event>, batchId: int)
    requires AllValid(EventSet(events))
    ensures Bulk(t, events, batchId).conflicts
         == Rejected(t, events, batchId, BulkIds(t, EventSet(events)), BulkTrips(t, EventSet(events))) + t.conflicts
  {
    hide BulkIds, BulkTrips, Rejected, AllValid;
  }

  /** Rejected rows carry bad or already blocked trips only. */
  lemma {:induction false} RejectedTripsAreBad(t: Tables, events: seq<Event>, batchId: int, k: ConflictKey)
    requires AllValid(EventSet(events))
    requires k in Rejected(t, events, batchId, BulkIds(t, EventSet(events)), BulkTrips(t, EventSet(events)))
    ensures var trip := Rejected(t, events, batchId, BulkIds(t, EventSet(events)), BulkTrips(t, EventSet(events)))[k].trip;
            trip.Some? ==> trip.value in BadTrips(t, EventSet(events)) + BlockedTrips(t.conflicts)
  {
    var batch := EventSet(events);
    var ids, trips := BulkIds(t, batch), BulkTrips(t, batch);
    var rows := Rejected(t, events, batchId, ids, trips);
    RejectedRecordsCopies(t, events, batchId, ids, trips);
    BulkSetsExceedByRecorded(t, batch);
    BulkIdsBetween(t, batch);
    StageIsCarried(t, batch);
    hide BulkIds, BulkTrips, Rejected, BadTrips, ConflictIds, BlockedTrips;
    assert CopyRow(t, events, ids, trips, k, rows[k]);
    if k.reason.CopyConflict? {
      var e :| e in events && Rejects(ids, trips, e) && k.eventId == e.id && rows[k] == ConflictOf(e);
      assert e in batch;
    } else if k.reason.PriorEventConflict? {
      var e :| e in events && e.id == k.eventId;
      assert e in batch;
    }
  }

  /** For any batch id, used or not: the blocked trips after `bulk_serve` are the earlier ones plus the bad ones of the batch
      exactly when every bad trip not yet blocked is carried by a rejected row whose key is not taken. */
  lemma {:induction false} BulkRecordsTripsExactly(t: Tables, events: seq<Event>, batchId: int)
    requires AllValid(EventSet(events))
    ensures BlockedTrips(Bulk(t, events, batchId).conflicts) == BlockedTrips(t.conflicts) + BadTrips(t, EventSet(events))
            <==> LosesNoTrip(t, events, batchId)
  {
    BulkConflictsAre(t, events, batchId);
    var rows := Rejected(t, events, batchId, BulkIds(t, EventSet(events)), BulkTrips(t, EventSet(events)));
    forall k | k in rows && rows[k].trip.Some? ensures rows[k].trip.value in BadTrips(t, EventSet(events)) + BlockedTrips(t.conflicts) {
      RejectedTripsAreBad(t, events, batchId, k);
    }
    hide *;
    ExactTrips(rows, t.conflicts, BadTrips(t, EventSet(events)));
    assert LosesNoTrip(t, events, batchId) <==>
           forall trip :: trip in BadTrips(t, EventSet(events)) && trip !in BlockedTrips(t.conflicts) ==> UnderFreeKey(rows, t.conflicts, trip)
      by { LosesNoTripMeans(t, events, batchId); }
  }

  ghost predicate UnderFreeKey(rows: Conflicts, before: Conflicts, trip: string) {
    exists k :: k in rows && k !in before && rows[k].trip == Some(trip)
  }

  lemma LosesNoTripMeans(t: Tables, events: seq<Event>, batchId: int)
    ensures var rows := Rejected(t, events, batchId, BulkIds(t, EventSet(events)), BulkTrips(t, EventSet(events)));
            LosesNoTrip(t, events, batchId) <==>
            forall trip :: trip in BadTrips(t, EventSet(events)) && trip !in BlockedTrips(t.conflicts) ==> UnderFreeKey(rows, t.conflicts, trip)
  {
    hide Rejected, BulkIds, BulkTrips, BadTrips, BlockedTrips, EventSet, UnderFreeKey;
  }

  lemma ExactTrips(rows: Conflicts, before: Conflicts, bad: set<string>)
    requires forall k :: k in rows && rows[k].trip.Some? ==> rows[k].trip.value in bad + BlockedTrips(before)
    ensures BlockedTrips(rows + before) == BlockedTrips(before) + bad
            <==> forall trip :: trip in bad && trip !in BlockedTrips(before) ==> UnderFreeKey(rows, before, trip)
  {
    TripsUnderFreeKeys(rows, before);
    hide BlockedTrips;
  }

  /** One INSERT ... ON CONFLICT DO NOTHING: the trips afterwards are the old ones and those of rows under free keys. */
  lemma TripsUnderFreeKeys(rows: Conflicts, before: Conflicts)
    ensures forall trip :: trip in BlockedTrips(rows + before) <==>
              trip in BlockedTrips(before) || UnderFreeKey(rows, before, trip)
  {
    forall trip ensures trip in BlockedTrips(rows + before) <==>
              trip in BlockedTrips(before) || UnderFreeKey(rows, before, trip)
    {
      var after := rows + before;
      if trip in BlockedTrips(after) {
        var k :| k in after && after[k].trip == Some(trip);
        assert k in before || k in rows;
      }
      if trip in BlockedTrips(before) {
        var k :| k in before && before[k].trip == Some(trip);
        assert k in after && after[k] == before[k];
      }
      if k :| k in rows && k !in before && rows[k].trip == Some(trip) {
        assert k in after && after[k] == rows[k];
      }
    }
  }

  predicate FreshBatch(t: Tables, batchId: int) {
    forall k :: k in t.conflicts ==> k.batch != batchId
  }

  /** A batch id that is not in the ledger yet loses no trip. */
  lemma {:induction false} FreshBatchLosesNoTrip(t: Tables, events: seq<Event>, batchId: int)
    requires AllValid(EventSet(events)) && FreshBatch(t, batchId)
    ensures LosesNoTrip(t, events, batchId)
  {
    hide BulkIds, BulkTrips, Rejected;
    forall trip | trip in BadTrips(t, EventSet(events)) && trip !in BlockedTrips(t.conflicts) ensures NewlyRecorded(t, events, batchId, trip) {
      BadTripHasRow(t, events, batchId, trip);
    }
  }

  lemma {:induction false} BadTripHasRow(t: Tables, events: seq<Event>, batchId: int, trip: string)
    requires AllValid(EventSet(events)) && trip in BadTrips(t, EventSet(events)) && trip !in BlockedTrips(t.conflicts)
    ensures var rows := Rejected(t, events, batchId, BulkIds(t, EventSet(events)), BulkTrips(t, EventSet(events)));
            exists k :: k in rows && k.batch == batchId && rows[k].trip == Some(trip)
  {
    var batch := EventSet(events);
    var ids, trips := BulkIds(t, batch), BulkTrips(t, batch);
    var rows := Rejected(t, events, batchId, ids, trips);
    RejectedRecordsCopies(t, events, batchId, ids, trips);
    BulkSetsExceedByRecorded(t, batch);
    BulkIdsBetween(t, batch);
    var c := BadTripHasCause(t, batch, ConflictIds(t, batch), trip);
    hide BulkIds, BulkTrips, Rejected, BadTrips, ConflictIds, BlockedTrips;
    match c {
      case Known(k) =>
        var e :| e in batch && e.id == k;
        assert ConflictKey(batchId, k, PriorEventConflict) in rows;
      case Blocked =>
      case StagedPair(e, _) => RejectedEventHasRow(t, events, batchId, ids, trips, rows, e);
      case Stored(e) => RejectedEventHasRow(t, events, batchId, ids, trips, rows, e);
      case Staged(e) => RejectedEventHasRow(t, events, batchId, ids, trips, rows, e);
    }
  }

  lemma RejectedEventHasRow(
    t: Tables, events: seq<Event>, batchId: int, ids: set<string>, trips: set<string>, rows: Conflicts, e: Event)
    requires RecordsCopies(t, events, batchId, ids, trips, rows) && e in events && Rejects(ids, trips, e)
    ensures exists k :: k in rows && k.batch == batchId && rows[k].trip == e.trip
  {
    assert CopyRecorded(rows, batchId, e);
    var i: nat :| ConflictKey(batchId, e.id, CopyConflict(i)) in rows && rows[ConflictKey(batchId, e.id, CopyConflict(i))] == ConflictOf(e);
  }

  /* ---- agreement with the staged merge ---- */

  /** Identities two tables agree on: everything but the wording of the conflict rows. */
  ghost predicate SameIdentities(a: Tables, b: Tables) {
    && a.keys == b.keys && a.contributions == b.contributions && a.trips == b.trips
    && ConflictedIds(a.conflicts) == ConflictedIds(b.conflicts)
    && BlockedTrips(a.conflicts) == BlockedTrips(b.conflicts)
  }

  /** What a caller of `bulk_serve` has to check: nothing hangs on an empty trip id, and no bad trip's row is a duplicate. */
  ghost predicate Harmless(t: Tables, events: seq<Event>, batchId: int) {
    EmptyTripHarmless(t, EventSet(events)) && LosesNoTrip(t, events, batchId)
  }

  lemma {:induction false} SameEffectOfBulk(t: Tables, seen: set<Event>, batch: set<Event>)
    requires Mirrors(t, seen) && AllValid(seen) && AllValid(batch) && EmptyTripHarmless(t, batch)
    ensures var ids, trips, moreIds, moreTrips := ConflictIds(t, batch), BadTrips(t, batch), BulkIds(t, batch), BulkTrips(t, batch);
            && Accepted(t.keys, batch, moreIds, moreTrips) == Accepted(t.keys, batch, ids, trips)
            && WithoutEvents(t.contributions, moreIds, moreTrips) == WithoutEvents(t.contributions, ids, trips)
            && WithoutTrips(t.trips, moreTrips) == WithoutTrips(t.trips, trips)
            && RejectedIds(t, batch, moreIds, moreTrips) == RejectedIds(t, batch, ids, trips)
  {
    BulkSetsExceedByRecorded(t, batch);
    StageCoversRecorded(t, batch);
    hide Mirrors, ConflictIds, BadTrips, BulkIds, BulkTrips, Accepted, WithoutEvents, WithoutTrips, RejectedIds, BlockedTrips, ConflictedIds;
    ExtraBlockingIsHarmless(t, seen, batch, ConflictIds(t, batch), BadTrips(t, batch), BulkIds(t, batch), BulkTrips(t, batch));
  }

  lemma StageCoversRecorded(t: Tables, batch: set<Event>)
    ensures forall e :: e in batch && e.id in ConflictedIds(t.conflicts) ==> e.id in ConflictIds(t, batch)
    ensures forall e :: e in batch && TripIn(e.trip, BlockedTrips(t.conflicts)) ==> e.trip.value in BadTrips(t, batch)
  {}

  /** With a harmless empty trip the effect of `bulk_serve` on the ledgers is that of blocking exactly the staged ids and trips. */
  lemma {:induction false} BulkIsStagedBlocking(t: Tables, seen: set<Event>, events: seq<Event>, batchId: int)
    requires Mirrors(t, seen) && AllValid(seen) && AllValid(EventSet(events)) && EmptyTripHarmless(t, EventSet(events))
    ensures var batch := EventSet(events);
            var ids, trips := ConflictIds(t, batch), BadTrips(t, batch);
            var bulk := Bulk(t, events, batchId);
            && OnePerId(Accepted(t.keys, batch, ids, trips)) && CompletionsAgree(Accepted(t.keys, batch, ids, trips))
            && bulk == After(t, batch, ids, trips, bulk.conflicts, batchId)
            && ConflictedIds(bulk.conflicts) == ConflictedIds(t.conflicts) + RejectedIds(t, batch, ids, trips)
  {
    var batch := EventSet(events);
    SameEffectOfBulk(t, seen, batch);
    BulkAcceptedIsCoherent(t, batch);
    BulkConflictedIds(t, seen, events, batchId);
    hide BulkIds, BulkTrips, Rejected, RejectedIds, ConflictedIds, ConflictIds, BadTrips, Accepted, WithoutEvents, WithoutTrips,
      OnePerId, CompletionsAgree, Mirrors, AllValid;
  }

  /** A batch that meets the condition keeps the ledgers equal to the reference. */
  lemma {:induction false} BulkKeepsMirror(t: Tables, seen: set<Event>, events: seq<Event>, batchId: int)
    requires Mirrors(t, seen) && AllValid(seen) && AllValid(EventSet(events)) && Harmless(t, events, batchId)
    ensures Mirrors(Bulk(t, events, batchId), seen + EventSet(events))
  {
    var batch := EventSet(events);
    var ids, trips := ConflictIds(t, batch), BadTrips(t, batch);
    BulkIsStagedBlocking(t, seen, events, batchId);
    BulkRecordsTripsExactly(t, events, batchId);
    StageIsCarried(t, batch);
    StageBlocks(t, seen, batch);
    hide Bulk, Mirrors, ConflictIds, BadTrips, Accepted, After, LosesNoTrip, EmptyTripHarmless;
    AfterMirrors(t, seen, batch, ids, trips, Bulk(t, events, batchId).conflicts, batchId);
  }

  /** From any state that mirrors its history and for any batch and batch id: both serving forms leave the same identities
      if and only if nothing hangs on an empty trip id and no bad trip's row is a duplicate. */
  lemma {:induction false} BulkMatchesMerge(
    t: Tables, seen: set<Event>, events: seq<Event>, rows: Topic, batchId: int, topic: Topic)
    requires Mirrors(t, seen) && AllValid(seen)
    requires ReasonsDetermined(t.keys, t.conflicts, topic) && FromTopic(rows, topic)
    requires rows.Values == EventSet(events) && AllValid(EventSet(events))
    ensures SameIdentities(Bulk(t, events, batchId), Merge(t, rows, batchId)) <==> Harmless(t, events, batchId)
  {
    var batch := EventSet(events);
    MergeConflictsAgree(t, rows, batchId, topic);
    BulkRecordsTripsExactly(t, events, batchId);
    if EmptyTripHarmless(t, batch) {
      BulkIsStagedBlocking(t, seen, events, batchId);
      MergeIsAfter(t, rows, batchId);
      hide Bulk, Merge, ConflictIds, BadTrips, Accepted, RejectedIds, ConflictedIds, BlockedTrips, LosesNoTrip;
    } else {
      EmptyTripSplits(t, seen, events, rows, batchId, topic);
    }
  }

  /** With a batch id that is not in the ledger yet only the empty trip matters. */
  lemma {:induction false} FreshBatchMatchesMerge(
    t: Tables, seen: set<Event>, events: seq<Event>, rows: Topic, batchId: int, topic: Topic)
    requires Mirrors(t, seen) && AllValid(seen) && FreshBatch(t, batchId)
    requires ReasonsDetermined(t.keys, t.conflicts, topic) && FromTopic(rows, topic)
    requires rows.Values == EventSet(events) && AllValid(EventSet(events))
    ensures SameIdentities(Bulk(t, events, batchId), Merge(t, rows, batchId)) <==> EmptyTripHarmless(t, EventSet(events))
  {
    BulkMatchesMerge(t, seen, events, rows, batchId, topic);
    FreshBatchLosesNoTrip(t, events, batchId);
    hide Bulk, Merge, SameIdentities, EmptyTripHarmless, LosesNoTrip;
  }

  lemma MergeIsAfter(t: Tables, rows: Topic, batchId: int)
    ensures var ids, trips := ConflictIds(t, rows.Values), BadTrips(t, rows.Values);
            && OnePerId(Accepted(t.keys, rows.Values, ids, trips)) && CompletionsAgree(Accepted(t.keys, rows.Values, ids, trips))
            && Merge(t, rows, batchId) == After(t, rows.Values, ids, trips, Merge(t, rows, batchId).conflicts, batchId)
  {
    AcceptedIsCoherent(t, rows.Values);
    hide ConflictIds, BadTrips, Accepted, RecordConflicts, OnePerId, CompletionsAgree;
  }

  /** If something does hang on an empty trip id, the two forms differ. */
  lemma {:induction false} EmptyTripSplits(
    t: Tables, seen: set<Event>, events: seq<Event>, rows: Topic, batchId: int, topic: Topic)
    requires Mirrors(t, seen) && AllValid(seen)
    requires ReasonsDetermined(t.keys, t.conflicts, topic) && FromTopic(rows, topic)
    requires rows.Values == EventSet(events) && AllValid(EventSet(events)) && !EmptyTripHarmless(t, EventSet(events))
    ensures !SameIdentities(Bulk(t, events, batchId), Merge(t, rows, batchId))
  {
    hide *;
    var batch := EventSet(events);
    SomethingHangsOnIt(t, batch);
    if k :| k in t.contributions && t.contributions[k].trip == Some("") && k !in ConflictIds(t, batch) {
      MergeRetracts(t, seen, rows, batchId, k);
      BulkKeeps(t, seen, events, batchId, k);
      SameIdentitiesMeans(Bulk(t, events, batchId), Merge(t, rows, batchId));
    } else {
      var e :| e in batch && e.trip == Some("") && e.id !in ConflictIds(t, batch);
      MergeRecords(t, rows, batchId, topic, e);
      BulkDoesNotRecord(t, seen, events, batchId, e);
      SameIdentitiesMeans(Bulk(t, events, batchId), Merge(t, rows, batchId));
    }
  }

  lemma SomethingHangsOnIt(t: Tables, batch: set<Event>)
    requires !EmptyTripHarmless(t, batch)
    ensures "" in BadTrips(t, batch)
    ensures (exists k :: k in t.contributions && t.contributions[k].trip == Some("") && k !in ConflictIds(t, batch))
         || (exists e :: e in batch && e.trip == Some("") && e.id !in ConflictIds(t, batch))
  {
    hide ConflictIds, BadTrips;
  }

  lemma SameIdentitiesMeans(a: Tables, b: Tables)
    ensures SameIdentities(a, b) ==> a.contributions == b.contributions && ConflictedIds(a.conflicts) == ConflictedIds(b.conflicts)
  {}

  lemma MergeRetracts(t: Tables, seen: set<Event>, rows: Topic, batchId: int, k: string)
    requires Mirrors(t, seen) && AllValid(seen) && k in t.contributions && t.contributions[k].trip == Some("")
    requires "" in BadTrips(t, rows.Values)
    ensures k !in Merge(t, rows, batchId).contributions
  {
    ContributionIsUnrecorded(t, seen, k);
    MergeIsAfter(t, rows, batchId);
    hide ConflictIds, BadTrips, Merge, Mirrors, AllValid, CompletionsAgree;
  }

  lemma BulkKeeps(t: Tables, seen: set<Event>, events: seq<Event>, batchId: int, k: string)
    requires Mirrors(t, seen) && AllValid(seen) && AllValid(EventSet(events))
    requires k in t.contributions && t.contributions[k].trip == Some("") && k !in ConflictIds(t, EventSet(events))
    ensures k in Bulk(t, events, batchId).contributions
  {
    var batch := EventSet(events);
    ContributionIsUnrecorded(t, seen, k);
    BulkSetsExceedByRecorded(t, batch);
    BulkKeepsUnblocked(t, events, batchId, k);
    hide *;
  }

  lemma BulkKeepsUnblocked(t: Tables, events: seq<Event>, batchId: int, k: string)
    requires AllValid(EventSet(events)) && k in t.contributions
    requires k !in BulkIds(t, EventSet(events)) && !TripIn(t.contributions[k].trip, BulkTrips(t, EventSet(events)))
    ensures k in Bulk(t, events, batchId).contributions
  {
    BulkAcceptedIsCoherent(t, EventSet(events));
    hide AllValid, BulkIds, BulkTrips, Rejected, CompletionsAgree, OnePerId, Accepted;
  }

  lemma MergeRecords(t: Tables, rows: Topic, batchId: int, topic: Topic, e: Event)
    requires ReasonsDetermined(t.keys, t.conflicts, topic) && FromTopic(rows, topic)
    requires e in rows.Values && e.trip == Some("") && "" in BadTrips(t, rows.Values)
    ensures e.id in ConflictedIds(Merge(t, rows, batchId).conflicts)
  {
    MergeConflictsAgree(t, rows, batchId, topic);
    hide ConflictIds, BadTrips, Merge, ConflictedIds;
  }

  lemma BulkDoesNotRecord(t: Tables, seen: set<Event>, events: seq<Event>, batchId: int, e: Event)
    requires Mirrors(t, seen) && AllValid(seen) && AllValid(EventSet(events))
    requires e in EventSet(events) && e.trip == Some("") && e.id !in ConflictIds(t, EventSet(events))
    ensures e.id !in ConflictedIds(Bulk(t, events, batchId).conflicts)
  {
    var batch := EventSet(events);
    assert Valid(e);
    hide ConflictIds, BadTrips, BulkIds, BulkTrips, Bulk, Mirrors, ConflictedIds, EventSet, RejectedIds, Rejects, AllValid;
    BulkConflictedIds(t, seen, events, batchId);
    BulkSetsExceedByRecorded(t, batch);
    BulkIdsBetween(t, batch);
    StageCoversRecorded(t, batch);
    OnlyCopyOfId(t, batch, e);
    NotRejected(t, batch, BulkIds(t, batch), BulkTrips(t, batch), e);
  }

  lemma NotRejected(t: Tables, batch: set<Event>, ids: set<string>, trips: set<string>, e: Event)
    requires Valid(e) && e.trip == Some("") && e.id !in ids && "" !in trips
    requires forall f :: f in batch && f.id == e.id ==> f == e
    ensures e.id !in RejectedIds(t, batch, ids, trips)
  {
    PriorIdHasPrefix();
  }

  lemma OnlyCopyOfId(t: Tables, batch: set<Event>, e: Event)
    requires e in batch && e.id !in ConflictIds(t, batch)
    ensures forall f :: f in batch && f.id == e.id ==> f == e
  {}

  lemma PriorIdHasPrefix()
    ensures forall trip :: PRIOR <= PriorId(trip)
  {}
}
