/** The loops and comprehensions of `bulk_serve`, each proved against the set it stands for. */
module BulkLoops {
  import Sums
  import opened Events
  import opened Ledgers
  import opened LedgerProof
  import opened BulkLedgers
  import opened VehicleState
  import opened VehicleTable

  type Groups = map<string, seq<Event>>

  ghost predicate Grouped(events: seq<Event>, byId: Groups) {
    byId.Keys == IdsOf(EventSet(events)) && forall id :: id in byId ==> byId[id] == Copies(events, id)
  }

  method GroupById(events: seq<Event>) returns (byId: Groups)
    ensures Grouped(events, byId)
  {
    byId := map[];
    GroupNone(events);
    for i := 0 to |events|
      invariant Grouped(events[..i], byId)
    {
      var e := events[i];
      GroupOneMore(events, i, byId);
      byId := byId[e.id := (if e.id in byId then byId[e.id] else []) + [e]];
    }
    assert events[..|events|] == events;
  }

  lemma GroupNone(events: seq<Event>)
    ensures Grouped(events[..0], map[])
  {
    assert events[..0] == [];
    assert IdsOf(EventSet([])) == {};
  }

  lemma NoCopiesOfNewId(events: seq<Event>, id: string)
    requires id !in IdsOf(EventSet(events))
    ensures Copies(events, id) == []
  {
    assert forall e :: e in events ==> e in EventSet(events);
    assert forall e :: e !in Copies(events, id);
  }

  lemma GroupOneMore(events: seq<Event>, i: nat, before: Groups)
    requires i < |events| && Grouped(events[..i], before)
    ensures var e := events[i];
            Grouped(events[..i + 1], before[e.id := (if e.id in before then before[e.id] else []) + [e]])
  {
    var e := events[i];
    var after := before[e.id := (if e.id in before then before[e.id] else []) + [e]];
    assert events[..i + 1] == events[..i] + [e];
    assert EventSet(events[..i + 1]) == EventSet(events[..i]) + {e};
    assert IdsOf(EventSet(events[..i + 1])) == IdsOf(EventSet(events[..i])) + {e.id};
    if e.id !in before {
      NoCopiesOfNewId(events[..i], e.id);
    }
    hide IdsOf, EventSet, Copies;
    forall id | id in after ensures after[id] == Copies(events[..i + 1], id) {
      CopiesUnfold(events, i, id);
    }
  }

  lemma CopiesUnfold(events: seq<Event>, i: nat, id: string)
    requires i < |events|
    ensures Copies(events[..i + 1], id) == Copies(events[..i], id) + if events[i].id == id then [events[i]] else []
  {
    assert events[..i + 1][..|events[..i + 1]| - 1] == events[..i];
  }

  /** Scan of the conflict rows that the lookup query returns. */
  method ScanConflicts(t: Tables, batch: set<Event>) returns (blockedEvents: set<string>, blockedTrips: set<string>)
    ensures blockedEvents == BlockedEventHits(t, batch)
    ensures blockedTrips == BlockedTripHits(t, batch)
  {
    blockedEvents, blockedTrips := {}, {};
    var todo := set k | k in t.conflicts && Hit(t, batch, k);
    while todo != {}
      invariant todo <= set k | k in t.conflicts && Hit(t, batch, k)
      invariant blockedEvents == set k | k in t.conflicts && Hit(t, batch, k) && k !in todo :: k.eventId
      invariant blockedTrips == set k | k in t.conflicts && Hit(t, batch, k) && k !in todo && Truthy(t.conflicts[k].trip)
                                  :: t.conflicts[k].trip.value
      decreases todo
    {
      var k :| k in todo;
      todo := todo - {k};
      blockedEvents := blockedEvents + {k.eventId};
      if Truthy(t.conflicts[k].trip) {
        blockedTrips := blockedTrips + {t.conflicts[k].trip.value};
      }
    }
  }

  /** A set of distinct fingerprints or signatures has more than one element exactly if two differ. */
  lemma MoreThanOne<T>(s: set<T>)
    ensures |s| > 1 <==> exists a, b :: a in s && b in s && a != b
  {
    if |s| > 1 {
      var a :| a in s;
      assert |s - {a}| == |s| - 1;
      var b :| b in s - {a};
    } else if a, b :| a in s && b in s && a != b {
      Sums.SubsetIsNoLarger({a, b}, s);
    }
  }

  function Fingerprints(copies: seq<Event>, keys: Keys, id: string): set<Event> {
    EventSet(copies) + if id in keys then {keys[id].fingerprint} else {}
  }

  method FindConflictingIds(events: seq<Event>, byId: Groups, t: Tables, blockedEvents: set<string>) returns (ids: set<string>)
    requires Grouped(events, byId) && blockedEvents == BlockedEventHits(t, EventSet(events))
    ensures ids == BulkIds(t, EventSet(events))
  {
    ids := (set id | id in byId && |Fingerprints(byId[id], t.keys, id)| > 1) + blockedEvents;
    forall id | id in byId ensures |Fingerprints(byId[id], t.keys, id)| > 1 <==> Clashes(EventSet(events), t.keys, id) {
      ClashOfCopies(events, t.keys, id);
    }
    ClashesAreBulkIds(t, EventSet(events), ids);
  }

  /** The id has two different copies in the batch, or one that differs from the stored one. */
  ghost predicate Clashes(batch: set<Event>, keys: Keys, id: string) {
    || (exists a, b :: a in batch && b in batch && a.id == id && b.id == id && a != b)
    || (id in keys && exists e :: e in batch && e.id == id && keys[id].fingerprint != e)
  }

  lemma ClashesAreBulkIds(t: Tables, batch: set<Event>, ids: set<string>)
    requires forall id :: id in ids <==> (id in IdsOf(batch) && Clashes(batch, t.keys, id)) || id in BlockedEventHits(t, batch)
    ensures ids == BulkIds(t, batch)
  {}

  lemma ClashOfCopies(events: seq<Event>, keys: Keys, id: string)
    requires id in IdsOf(EventSet(events))
    ensures |Fingerprints(Copies(events, id), keys, id)| > 1 <==> Clashes(EventSet(events), keys, id)
  {
    var s := Fingerprints(Copies(events, id), keys, id);
    MoreThanOne(s);
    FingerprintMembers(events, keys, id);
    var e :| e in EventSet(events) && e.id == id;
    assert e in s;
  }

  lemma FingerprintMembers(events: seq<Event>, keys: Keys, id: string)
    ensures forall f :: f in Fingerprints(Copies(events, id), keys, id) <==>
              (f in EventSet(events) && f.id == id) || (id in keys && f == keys[id].fingerprint)
  {}

  function SignaturesOf(batch: set<Event>, trip: string): set<Signature> {
    set e | e in batch && e.completed && e.trip == Some(trip) :: SignatureOf(e)
  }

  lemma SignaturesGrow(batch: set<Event>, e: Event)
    ensures forall trip :: SignaturesOf(batch + {e}, trip)
                        == SignaturesOf(batch, trip) + if e.completed && e.trip == Some(trip) then {SignatureOf(e)} else {}
  {
    forall trip ensures SignaturesOf(batch + {e}, trip)
                     == SignaturesOf(batch, trip) + if e.completed && e.trip == Some(trip) then {SignatureOf(e)} else {}
    {
      assert e in batch + {e};
    }
  }

  function Collected(signatures: map<string, set<Signature>>, trip: string): set<Signature> {
    if trip in signatures then signatures[trip] else {}
  }

  /** `signatures`: the completion signatures per trip of the batch. */
  method CollectSignatures(events: seq<Event>) returns (signatures: map<string, set<Signature>>)
    ensures forall trip :: Collected(signatures, trip) == SignaturesOf(EventSet(events), trip)
  {
    signatures := map[];
    for i := 0 to |events|
      invariant forall trip :: Collected(signatures, trip) == SignaturesOf(EventSet(events[..i]), trip)
    {
      var e := events[i];
      assert EventSet(events[..i + 1]) == EventSet(events[..i]) + {e};
      SignaturesGrow(EventSet(events[..i]), e);
      if e.completed && e.trip.Some? {
        var trip := e.trip.value;
        signatures := signatures[trip := Collected(signatures, trip) + {SignatureOf(e)}];
      }
    }
    assert events[..|events|] == events;
  }

  function WithStored(signatures: set<Signature>, stored: Trips, trip: string): set<Signature> {
    signatures + if trip in stored then {stored[trip]} else {}
  }

  /** Trips of the batch whose completions, with the stored one, disagree. */
  method FindDisputedTrips(events: seq<Event>, t: Tables) returns (trips: set<string>)
    requires AllValid(EventSet(events))
    ensures forall trip :: trip in trips <==> Disputed(t, EventSet(events), trip)
  {
    var signatures := CollectSignatures(events);
    var stored := KnownTrips(t, EventSet(events));
    trips := set trip | trip in signatures && |WithStored(signatures[trip], stored, trip)| > 1;
    forall trip ensures trip in trips <==> Disputed(t, EventSet(events), trip) {
      DisputeOfSignatures(t, EventSet(events), stored, trip);
      assert trip !in signatures ==> SignaturesOf(EventSet(events), trip) == {};
    }
  }

  ghost predicate Disputed(t: Tables, batch: set<Event>, trip: string) {
    || (exists a, b :: a in batch && b in batch && a.completed && b.completed && a.trip == b.trip == Some(trip)
                       && SignatureOf(a) != SignatureOf(b))
    || (exists e :: e in batch && e.completed && e.trip == Some(trip) && trip in t.trips && trip in TripScope(t, batch)
                    && SignatureOf(e) != t.trips[trip])
  }

  lemma DisputeOfSignatures(t: Tables, batch: set<Event>, stored: Trips, trip: string)
    requires stored == KnownTrips(t, batch)
    ensures (SignaturesOf(batch, trip) != {} && |WithStored(SignaturesOf(batch, trip), stored, trip)| > 1) <==> Disputed(t, batch, trip)
  {
    var signatures := SignaturesOf(batch, trip);
    MoreThanOne(WithStored(signatures, stored, trip));
    if Disputed(t, batch, trip) {
      var e :| e in batch && e.completed && e.trip == Some(trip);
      assert SignatureOf(e) in signatures;
      SignatureMembers(batch, trip);
    }
    if signatures != {} {
      var s :| s in signatures;
      SignatureMembers(batch, trip);
    }
  }

  lemma SignatureMembers(batch: set<Event>, trip: string)
    ensures forall e :: e in batch && e.completed && e.trip == Some(trip) ==> SignatureOf(e) in SignaturesOf(batch, trip)
    ensures forall s :: s in SignaturesOf(batch, trip) ==>
              exists e :: e in batch && e.completed && e.trip == Some(trip) && SignatureOf(e) == s
  {}

  /** Reject or accept every id: the main loop of `bulk_serve`. */
  method Sift(events: seq<Event>, byId: Groups, keys: Keys, batchId: int, ids: set<string>, trips: set<string>)
    returns (rejected: Conflicts, accepted: set<Event>)
    requires Grouped(events, byId)
    requires forall id :: Clashes(EventSet(events), keys, id) ==> id in ids
    ensures rejected == CopyConflicts(events, batchId, ids, trips)
    ensures accepted == Accepted(keys, EventSet(events), ids, trips)
  {
    hide CopyConflictsOf, AcceptedUpTo, Accepted, RowsIfBlocked, Clashes;
    NothingDone(events, keys, batchId, ids, trips);
    rejected, accepted := map[], {};
    var todo := byId.Keys;
    assert byId.Keys - todo == {};
    while todo != {}
      invariant todo <= byId.Keys
      invariant rejected == CopyConflictsOf(events, batchId, ids, trips, byId.Keys - todo)
      invariant accepted == AcceptedUpTo(events, keys, ids, trips, byId.Keys - todo)
      decreases todo
    {
      var id :| id in todo;
      ghost var done := byId.Keys - todo;
      CopiesOfOneId(events, keys, ids, id);
      RejectOneMore(events, batchId, ids, trips, done, id);
      AcceptOneMore(events, keys, ids, trips, done, id);
      rejected, accepted := SiftOne(byId[id], id, keys, batchId, ids, trips, rejected, accepted);
      todo := todo - {id};
      assert byId.Keys - todo == done + {id};
    }
    assert byId.Keys - todo == IdsOf(EventSet(events));
    AllIdsAccepted(events, keys, ids, trips);
  }

  /** `for index, item in enumerate(copies)` */
  function CopyRowsOf(copies: seq<Event>, batchId: int, id: string): Conflicts {
    map i | 0 <= i < |copies| :: ConflictKey(batchId, id, CopyConflict(i)) := ConflictOf(copies[i])
  }

  method SiftOne(copies: seq<Event>, id: string, keys: Keys, batchId: int, ids: set<string>, trips: set<string>,
                 rejectedSoFar: Conflicts, acceptedSoFar: set<Event>)
    returns (rejected: Conflicts, accepted: set<Event>)
    requires copies != []
    ensures var blocked := id in ids || TripIn(copies[0].trip, trips);
            && rejected == rejectedSoFar + RowsIfBlocked(copies, batchId, id, ids, trips)
            && accepted == acceptedSoFar + (if !blocked && id !in keys then {copies[0]} else {})
  {
    rejected, accepted := rejectedSoFar, acceptedSoFar;
    var item := copies[0];
    if id in ids || TripIn(item.trip, trips) {
      rejected := rejected + CopyRowsOf(copies, batchId, id);
    } else if id !in keys {
      accepted := accepted + {item};
    }
  }

  function AcceptedUpTo(events: seq<Event>, keys: Keys, ids: set<string>, trips: set<string>, done: set<string>): set<Event> {
    set e | e in Accepted(keys, EventSet(events), ids, trips) && e.id in done
  }

  ghost predicate IsCopyRow(events: seq<Event>, batchId: int, ids: set<string>, trips: set<string>, of: set<string>, k: ConflictKey) {
    && k.batch == batchId && k.reason.CopyConflict? && k.eventId in of
    && k.reason.index < |Copies(events, k.eventId)| && Rejects(ids, trips, Copies(events, k.eventId)[k.reason.index])
  }

  lemma CopyConflictsMembers(events: seq<Event>, batchId: int, ids: set<string>, trips: set<string>, of: set<string>, k: ConflictKey)
    ensures k in CopyConflictsOf(events, batchId, ids, trips, of) <==> IsCopyRow(events, batchId, ids, trips, of, k)
    ensures k in CopyConflictsOf(events, batchId, ids, trips, of) ==>
              CopyConflictsOf(events, batchId, ids, trips, of)[k] == ConflictOf(Copies(events, k.eventId)[k.reason.index])
  {}

  /** The rows of one more id: all of its copies or none. */
  function RowsIfBlocked(copies: seq<Event>, batchId: int, id: string, ids: set<string>, trips: set<string>): Conflicts
    requires copies != []
  {
    if id in ids || TripIn(copies[0].trip, trips) then CopyRowsOf(copies, batchId, id) else map[]
  }

  lemma RejectOneMore(events: seq<Event>, batchId: int, ids: set<string>, trips: set<string>, done: set<string>, id: string)
    requires id !in done && Copies(events, id) != []
    requires id !in ids ==> forall e :: e in EventSet(events) && e.id == id ==> e == Copies(events, id)[0]
    ensures CopyConflictsOf(events, batchId, ids, trips, done + {id})
         == CopyConflictsOf(events, batchId, ids, trips, done) + RowsIfBlocked(Copies(events, id), batchId, id, ids, trips)
  {
    var before := CopyConflictsOf(events, batchId, ids, trips, done);
    var after := CopyConflictsOf(events, batchId, ids, trips, done + {id});
    var added := RowsIfBlocked(Copies(events, id), batchId, id, ids, trips);
    forall k ensures SameEntry(after, before + added, k) {
      CopyConflictsMembers(events, batchId, ids, trips, done, k);
      CopyConflictsMembers(events, batchId, ids, trips, done + {id}, k);
      CopyRowsMembers(Copies(events, id), batchId, id, k);
      RejectKey(events, batchId, ids, trips, done, id, k, before, after, added);
    }
    SameEntriesSameMap(after, before + added);
  }

  ghost predicate SameEntry(a: Conflicts, b: Conflicts, k: ConflictKey) {
    (k in a <==> k in b) && (k in a ==> a[k] == b[k])
  }

  lemma SameEntriesSameMap(a: Conflicts, b: Conflicts)
    requires forall k :: SameEntry(a, b, k)
    ensures a == b
  {
    assert forall k :: SameEntry(a, b, k) ==> (k in a <==> k in b);
  }

  lemma RejectKey(events: seq<Event>, batchId: int, ids: set<string>, trips: set<string>, done: set<string>, id: string,
                  k: ConflictKey, before: Conflicts, after: Conflicts, added: Conflicts)
    requires id !in done && Copies(events, id) != []
    requires id !in ids ==> forall e :: e in EventSet(events) && e.id == id ==> e == Copies(events, id)[0]
    requires k in before <==> IsCopyRow(events, batchId, ids, trips, done, k)
    requires k in after <==> IsCopyRow(events, batchId, ids, trips, done + {id}, k)
    requires k in added <==> (id in ids || TripIn(Copies(events, id)[0].trip, trips))
                             && k.batch == batchId && k.eventId == id && k.reason.CopyConflict? && k.reason.index < |Copies(events, id)|
    requires k in before ==> before[k] == ConflictOf(Copies(events, k.eventId)[k.reason.index])
    requires k in after ==> after[k] == ConflictOf(Copies(events, k.eventId)[k.reason.index])
    requires k in added ==> added[k] == ConflictOf(Copies(events, k.eventId)[k.reason.index])
    ensures SameEntry(after, before + added, k)
  {
    var copies := Copies(events, id);
    if k.reason.CopyConflict? && k.eventId == id && k.reason.index < |copies| {
      var e := copies[k.reason.index];
      assert e in copies;
      assert e in EventSet(events) && e.id == id;
      assert Rejects(ids, trips, e) <==> id in ids || TripIn(copies[0].trip, trips);
    }
  }

  lemma CopyRowsMembers(copies: seq<Event>, batchId: int, id: string, k: ConflictKey)
    ensures k in CopyRowsOf(copies, batchId, id) <==>
            k.batch == batchId && k.eventId == id && k.reason.CopyConflict? && k.reason.index < |copies|
    ensures k in CopyRowsOf(copies, batchId, id) ==> CopyRowsOf(copies, batchId, id)[k] == ConflictOf(copies[k.reason.index])
  {}

  lemma NothingDone(events: seq<Event>, keys: Keys, batchId: int, ids: set<string>, trips: set<string>)
    ensures CopyConflictsOf(events, batchId, ids, trips, {}) == map[]
    ensures AcceptedUpTo(events, keys, ids, trips, {}) == {}
  {}

  lemma AllIdsAccepted(events: seq<Event>, keys: Keys, ids: set<string>, trips: set<string>)
    ensures AcceptedUpTo(events, keys, ids, trips, IdsOf(EventSet(events))) == Accepted(keys, EventSet(events), ids, trips)
  {}

  lemma AcceptOneMore(events: seq<Event>, keys: Keys, ids: set<string>, trips: set<string>, done: set<string>, id: string)
    requires id in IdsOf(EventSet(events)) && Copies(events, id) != []
    requires id !in ids ==> forall e :: e in EventSet(events) && e.id == id ==> e == Copies(events, id)[0]
    ensures AcceptedUpTo(events, keys, ids, trips, done + {id}) == AcceptedUpTo(events, keys, ids, trips, done)
              + if !(id in ids || TripIn(Copies(events, id)[0].trip, trips)) && id !in keys then {Copies(events, id)[0]} else {}
  {
    var item := Copies(events, id)[0];
    assert item in Copies(events, id);
    assert item in EventSet(events) && item.id == id;
  }

  /** An id is rejected or accepted as a whole: either it is blocked or all its copies are equal. */
  lemma CopiesOfOneId(events: seq<Event>, keys: Keys, ids: set<string>, id: string)
    requires id in IdsOf(EventSet(events))
    requires forall x :: Clashes(EventSet(events), keys, x) ==> x in ids
    ensures Copies(events, id) != []
    ensures id !in ids ==> forall e :: e in EventSet(events) && e.id == id ==> e == Copies(events, id)[0]
  {
    var e :| e in EventSet(events) && e.id == id;
    assert e in Copies(events, id);
    assert Copies(events, id)[0] in Copies(events, id);
  }

  /** The sequential state fold, collecting the changed rows and the completed trips. */
  method FoldAccepted(kept: Vehicles, sorted: seq<Event>) returns (changed: Vehicles, trips: Trips)
    requires Sorted(sorted) && CompletionsAgree(EventSet(sorted))
    ensures kept + changed == FoldVehicles(kept, sorted)
    ensures changed.Keys <= VehiclesOf(EventSet(sorted))
    ensures trips == NewTrips(EventSet(sorted))
  {
    var states := kept;
    changed, trips := map[], map[];
    for i := 0 to |sorted|
      invariant states == kept + changed
      invariant states == FoldVehicles(kept, sorted[..i])
      invariant changed.Keys <= VehiclesOf(EventSet(sorted[..i]))
      invariant CompletionsAgree(EventSet(sorted[..i])) && trips == NewTrips(EventSet(sorted[..i]))
    {
      FoldOneMore(kept, sorted, i);
      TripsOneMore(sorted, i);
      states, changed, trips := FoldOne(kept, states, changed, trips, sorted[i]);
    }
    assert sorted[..|sorted|] == sorted;
  }

  method FoldOne(ghost kept: Vehicles, statesBefore: Vehicles, changedBefore: Vehicles, tripsBefore: Trips, item: Event)
    returns (states: Vehicles, changed: Vehicles, trips: Trips)
    requires statesBefore == kept + changedBefore
    ensures states == kept + changed == FoldMore(statesBefore, item)
    ensures changed.Keys <= changedBefore.Keys + {item.vehicle}
    ensures trips == if item.completed && item.trip.Some? then tripsBefore[item.trip.value := SignatureOf(item)] else tripsBefore
  {
    states, changed, trips := statesBefore, changedBefore, tripsBefore;
    var prior := RowOf(states, item.vehicle);
    if prior.None? || Newer(item, prior.value) {
      var idle := if item.status != Idle then None
                  else if prior.Some? && prior.value.status == Idle then prior.value.idleSince
                  else Some(item.ts);
      var row := StateRow(item.zone, item.status, idle, item.ts, item.id);
      states := states[item.vehicle := row];
      changed := changed[item.vehicle := row];
    }
    if item.completed && item.trip.Some? {
      trips := trips[item.trip.value := SignatureOf(item)];
    }
  }

  function FoldMore(states: Vehicles, item: Event): Vehicles {
    match FoldStep(RowOf(states, item.vehicle), item)
    case None => states
    case Some(row) => states[item.vehicle := row]
  }

  lemma FoldOneMore(kept: Vehicles, sorted: seq<Event>, i: nat)
    requires i < |sorted|
    ensures FoldVehicles(kept, sorted[..i + 1]) == FoldMore(FoldVehicles(kept, sorted[..i]), sorted[i])
    ensures VehiclesOf(EventSet(sorted[..i + 1])) == VehiclesOf(EventSet(sorted[..i])) + {sorted[i].vehicle}
  {
    assert sorted[..i + 1][..|sorted[..i + 1]| - 1] == sorted[..i];
    assert EventSet(sorted[..i + 1]) == EventSet(sorted[..i]) + {sorted[i]};
  }

  lemma TripsOneMore(sorted: seq<Event>, i: nat)
    requires i < |sorted| && CompletionsAgree(EventSet(sorted))
    ensures CompletionsAgree(EventSet(sorted[..i])) && CompletionsAgree(EventSet(sorted[..i + 1]))
    ensures var before, item := NewTrips(EventSet(sorted[..i])), sorted[i];
            NewTrips(EventSet(sorted[..i + 1]))
            == if item.completed && item.trip.Some? then before[item.trip.value := SignatureOf(item)] else before
  {
    assert EventSet(sorted[..i + 1]) == EventSet(sorted[..i]) + {sorted[i]};
    assert forall e :: e in sorted[..i + 1] ==> e in EventSet(sorted);
  }
}
