/**
 The identity ledgers of the serving database and the set-based statements that
 `merge_staged` runs on them, one function per statement.
 */
module Ledgers {
  import opened Events

  type Topic = map<Position, Event>

  /** A row of `stream_event_keys`. The fingerprint stands for its injective digest. */
  datatype KeyRow = KeyRow(fingerprint: Event, ts: int, vehicle: string, trip: Option<string>, batch: int)

  datatype Reason =
    | StagedConflict(at: Position)
    | CopyConflict(index: nat)
    | PriorEventConflict
    | PriorTripConflict

  /** Primary key of `stream_conflicts`. */
  datatype ConflictKey = ConflictKey(batch: int, eventId: string, reason: Reason)

  /** The day of the conflict and the two payload fields that readers look at. */
  datatype Conflict = Conflict(day: int, trip: Option<string>, vehicle: string)

  /** A row of `rt_zone_metric_events`. */
  datatype Contribution = Contribution(
    trip: Option<string>, fingerprint: Event, window: int, zone: string,
    vehicle: string, status: Status, completed: bool, fare: nat)

  type Keys = map<string, KeyRow>
  type Conflicts = map<ConflictKey, Conflict>
  type Contributions = map<string, Contribution>
  type Trips = map<string, Signature>

  datatype Tables = Tables(keys: Keys, conflicts: Conflicts, trips: Trips, contributions: Contributions)

  const EMPTY := Tables(map[], map[], map[], map[])

  function KeyOf(e: Event, batch: int): KeyRow {
    KeyRow(e, e.ts, e.vehicle, e.trip, batch)
  }

  function ConflictOf(e: Event): Conflict {
    Conflict(DayOf(e.ts), e.trip, e.vehicle)
  }

  /** The row for a stored identity whose id conflicts, and the one for a stored trip that is withdrawn. */
  function KnownConflict(row: KeyRow): Conflict {
    Conflict(DayOf(row.ts), row.trip, row.vehicle)
  }

  function WithdrawnConflict(trip: string, s: Signature): Conflict {
    Conflict(DayOf(s.ts), Some(trip), s.vehicle)
  }

  function ContributionOf(e: Event): Contribution {
    Contribution(e.trip, e, WindowOf(e.ts), e.zone, e.vehicle, e.status, e.completed, e.fare)
  }

  function ConflictedIds(conflicts: Conflicts): set<string> {
    set k | k in conflicts :: k.eventId
  }

  function BlockedTrips(conflicts: Conflicts): set<string> {
    set k | k in conflicts && conflicts[k].trip.Some? :: conflicts[k].trip.value
  }

  predicate TripIn(trip: Option<string>, trips: set<string>) {
    trip.Some? && trip.value in trips
  }

  /* ---- the temporary tables of one merge ---- */

  /** `stage_conflict_ids` */
  function ConflictIds(t: Tables, batch: set<Event>): set<string> {
    (set a, b | a in batch && b in batch && a.id == b.id && a != b :: a.id)
    + (set e | e in batch && e.id in t.keys && t.keys[e.id].fingerprint != e :: e.id)
    + (set e | e in batch && e.id in ConflictedIds(t.conflicts) :: e.id)
  }

  /** `stage_bad_trips`, given the conflicting ids */
  function StageBadTrips(t: Tables, batch: set<Event>, ids: set<string>): set<string> {
    (set a, b | a in batch && b in batch && a.completed && b.completed && a.trip.Some? && a.trip == b.trip
                && SignatureOf(a) != SignatureOf(b) :: a.trip.value)
    + (set e | e in batch && e.completed && TripIn(e.trip, t.trips.Keys)
                && SignatureOf(e) != t.trips[e.trip.value] :: e.trip.value)
    + (set e | e in batch && e.id in ids && e.trip.Some? :: e.trip.value)
    + (set k | k in t.keys && k in ids && t.keys[k].trip.Some? :: t.keys[k].trip.value)
    + (set e | e in batch && TripIn(e.trip, BlockedTrips(t.conflicts)) :: e.trip.value)
  }

  function BadTrips(t: Tables, batch: set<Event>): set<string> {
    StageBadTrips(t, batch, ConflictIds(t, batch))
  }

  predicate Rejects(ids: set<string>, trips: set<string>, e: Event) {
    e.id in ids || TripIn(e.trip, trips)
  }

  /** `stage_accepted`; copies of one unrejected id are equal, so the set has one event per id. */
  function Accepted(keys: Keys, batch: set<Event>, ids: set<string>, trips: set<string>): set<Event> {
    set e | e in batch && !Rejects(ids, trips, e) && e.id !in keys
  }

  /* ---- the statements: `old` wins over new rows wherever the SQL says ON CONFLICT DO NOTHING ---- */

  function StagedConflicts(rows: Topic, batchId: int, ids: set<string>, trips: set<string>): Conflicts {
    map p | p in rows && Rejects(ids, trips, rows[p]) ::
      ConflictKey(batchId, rows[p].id, StagedConflict(p)) := ConflictOf(rows[p])
  }

  function PriorEventConflicts(keys: Keys, batchId: int, ids: set<string>): Conflicts {
    map k | k in keys && k in ids ::
      ConflictKey(batchId, k, PriorEventConflict) := KnownConflict(keys[k])
  }

  function PriorTripConflicts(done: Trips, batchId: int, trips: set<string>): Conflicts {
    PriorIdIsInjective();
    map t | t in done && t in trips ::
      ConflictKey(batchId, PriorId(t), PriorTripConflict) := WithdrawnConflict(t, done[t])
  }

  function WithoutTrips(done: Trips, trips: set<string>): Trips {
    done - trips
  }

  function WithoutEvents(cs: Contributions, ids: set<string>, trips: set<string>): Contributions {
    map k | k in cs && k !in ids && !TripIn(cs[k].trip, trips) :: cs[k]
  }

  function NewContributions(accepted: set<Event>): Contributions
    requires OnePerId(accepted)
  {
    map e | e in accepted :: e.id := ContributionOf(e)
  }

  function NewKeys(accepted: set<Event>, batchId: int): Keys
    requires OnePerId(accepted)
  {
    map e | e in accepted :: e.id := KeyOf(e, batchId)
  }

  /** Live completions of one trip agree, so which of them is inserted first does not show. */
  ghost predicate CompletionsAgree(events: set<Event>) {
    forall a, b :: a in events && b in events && a.completed && b.completed && a.trip.Some? && a.trip == b.trip
      ==> SignatureOf(a) == SignatureOf(b)
  }

  function NewTrips(accepted: set<Event>): Trips
    requires CompletionsAgree(accepted)
  {
    map e | e in accepted && e.completed && e.trip.Some? :: e.trip.value := SignatureOf(e)
  }

  lemma AcceptedIsCoherent(t: Tables, batch: set<Event>)
    ensures var accepted := Accepted(t.keys, batch, ConflictIds(t, batch), BadTrips(t, batch));
            OnePerId(accepted) && CompletionsAgree(accepted)
  {}

  /** The three INSERTs into `stream_conflicts`. */
  function RecordConflicts(t: Tables, rows: Topic, batchId: int, ids: set<string>, trips: set<string>): Conflicts {
    PriorTripConflicts(t.trips, batchId, trips)
    + (PriorEventConflicts(t.keys, batchId, ids) + (StagedConflicts(rows, batchId, ids, trips) + t.conflicts))
  }

  /** The four tables after a merge that blocks `ids` and `trips` and records them in `conflicts`. */
  function After(t: Tables, batch: set<Event>, ids: set<string>, trips: set<string>, conflicts: Conflicts, batchId: int): Tables
    requires OnePerId(Accepted(t.keys, batch, ids, trips)) && CompletionsAgree(Accepted(t.keys, batch, ids, trips))
  {
    var accepted := Accepted(t.keys, batch, ids, trips);
    Tables(NewKeys(accepted, batchId) + t.keys,
           conflicts,
           NewTrips(accepted) + WithoutTrips(t.trips, trips),
           NewContributions(accepted) + WithoutEvents(t.contributions, ids, trips))
  }

  /** The whole merge of one staged micro-batch on the identity ledgers. */
  function Merge(t: Tables, rows: Topic, batchId: int): Tables {
    var ids, trips := ConflictIds(t, rows.Values), BadTrips(t, rows.Values);
    AcceptedIsCoherent(t, rows.Values);
    After(t, rows.Values, ids, trips, RecordConflicts(t, rows, batchId, ids, trips), batchId)
  }
}
