/** Where stronger claims about serving are false: small families of inputs for each. */
module ServingLimits {
  import Text
  import opened Events
  import opened Reference
  import opened Ledgers
  import opened LedgerProof
  import opened MergeProof
  import opened BulkLedgers
  import opened ServingRuns
  import opened VehicleState
  import ConflictDays

  /** The accepted keys depend on how events are split into batches: two copies of an id together are both
      rejected, one after the other the first one stays in the append-only ledger. */
  lemma KeysDependOnBatching(a: Event, b: Event, p: Position, q: Position)
    requires a.id == b.id && a != b && a.trip.None? && b.trip.None? && p != q
    ensures a.id !in Merge(EMPTY, map[p := a, q := b], 0).keys
    ensures a.id in Merge(Merge(EMPTY, map[p := a], 0), map[q := b], 1).keys
  {
    var both: Topic := map[p := a, q := b];
    assert both[p] == a && both[q] == b;
    assert a in both.Values && b in both.Values;
    assert a.id in ConflictIds(EMPTY, both.Values);
    SingleIsAccepted(a, p);
  }

  lemma SingleIsAccepted(a: Event, p: Position)
    requires a.trip.None?
    ensures a.id in Merge(EMPTY, map[p := a], 0).keys
  {
    var rows: Topic := map[p := a];
    assert rows.Values == {a} by {
      assert rows[p] == a;
    }
    assert a in Accepted(EMPTY.keys, rows.Values, ConflictIds(EMPTY, rows.Values), BadTrips(EMPTY, rows.Values));
  }

  lemma TwoCopiesReject(t: Tables, a: Event, b: Event, trip: string)
    requires a.id == b.id && a != b && a.trip == Some(trip) && trip != "" && t.keys == map[]
    ensures var batch := EventSet([a, b]);
            a.id in BulkIds(t, batch) && trip in BulkTrips(t, batch)
            && Accepted(t.keys, batch, BulkIds(t, batch), BulkTrips(t, batch)) == {}
  {
    var batch := EventSet([a, b]);
    assert a in [a, b] && b in [a, b];
    assert a in batch && b in batch;
    assert a.id in BulkIds(t, batch);
  }

  /** `bulk_serve` names rejected copies by index only. When a batch id comes back, the row for another trip of the
      same id is dropped by ON CONFLICT DO NOTHING, and that trip is never recorded as blocked. */
  lemma {:induction false} ReusedBatchIdLosesTrip(a: Event, b: Event, c: Event, one: string, two: string)
    requires AllValid({a, b, c}) && a.id == b.id == c.id && a != b && c != a && c != b
    requires a.trip == Some(one) && b.trip == Some(one) && c.trip == Some(two) && one != "" && two != "" && one != two
    ensures var first := Bulk(EMPTY, [a, b], 0);
            AllValid(EventSet([c])) && two !in BlockedTrips(Bulk(first, [c], 0).conflicts)
    ensures BadTrip({a, b, c}, two)
  {
    assert BadId({a, b, c}, c.id);
    assert AllValid(EventSet([a, b])) && AllValid(EventSet([c]));
    var first := Bulk(EMPTY, [a, b], 0);
    FirstBatchTables(a, b, one);
    FirstBatchRow(a, b, one);
    hide Bulk, BulkIds, BulkTrips, BulkTripsFor;
    LostRow(first, a, c, one, two);
  }

  lemma OnlyCopiesRejected(t: Tables, events: seq<Event>, ids: set<string>, trips: set<string>)
    requires t.keys == map[] && t.trips == map[]
    ensures Rejected(t, events, 0, ids, trips) == CopyConflicts(events, 0, ids, trips)
  {
    hide CopyConflicts, TripScope, EventSet;
    assert PriorEventConflicts(KnownKeys(t, EventSet(events)), 0, ids) == map[];
    assert PriorTripConflicts(KnownTrips(t, EventSet(events)), 0, trips) == map[];
  }

  /** Rows of a batch with one id name that id, its trip and a copy that exists. */
  lemma RowsOfCopies(events: seq<Event>, id: string, trip: Option<string>, ids: set<string>, trips: set<string>, k: ConflictKey)
    requires forall e :: e in events ==> e.id == id && e.trip == trip
    requires k in CopyConflicts(events, 0, ids, trips)
    ensures k.batch == 0 && k.eventId == id && k.reason.CopyConflict? && k.reason.index < |Copies(events, id)|
    ensures CopyConflicts(events, 0, ids, trips)[k].trip == trip
    ensures exists e :: e in events && CopyConflicts(events, 0, ids, trips)[k] == ConflictOf(e)
  {
    hide Rejects;
    var of := IdsOf(EventSet(events));
    assert forall x :: x in of ==> x == id;
    hide IdsOf, EventSet;
    var x, i: nat :| x in of && i < |Copies(events, x)| && k == ConflictKey(0, x, CopyConflict(i));
    assert Copies(events, x)[i] in events;
  }

  lemma FirstCopyRow(events: seq<Event>, ids: set<string>, trips: set<string>, a: Event)
    requires a in events && a.id in ids && Copies(events, a.id) != []
    ensures ConflictKey(0, a.id, CopyConflict(0)) in CopyConflicts(events, 0, ids, trips)
  {
    var of := IdsOf(EventSet(events));
    assert a in EventSet(events);
    assert a.id in of;
    hide IdsOf, EventSet;
    assert Copies(events, a.id)[0].id == a.id by {
      assert Copies(events, a.id)[0] in Copies(events, a.id);
    }
    assert Rejects(ids, trips, Copies(events, a.id)[0]);
  }

  lemma BulkConflicts(t: Tables, events: seq<Event>)
    requires AllValid(EventSet(events)) && t.keys == map[] && t.trips == map[]
    ensures var batch := EventSet(events);
            Bulk(t, events, 0).conflicts == CopyConflicts(events, 0, BulkIds(t, batch), BulkTrips(t, batch)) + t.conflicts
  {
    hide CopyConflicts, BulkIds, BulkTrips, Rejected, AllValid;
    OnlyCopiesRejected(t, events, BulkIds(t, EventSet(events)), BulkTrips(t, EventSet(events)));
  }

  lemma NothingAccepted(events: seq<Event>)
    requires AllValid(EventSet(events))
    requires var batch := EventSet(events); Accepted(map[], batch, BulkIds(EMPTY, batch), BulkTrips(EMPTY, batch)) == {}
    ensures Bulk(EMPTY, events, 0).keys == map[] && Bulk(EMPTY, events, 0).trips == map[]
  {
    hide BulkIds, BulkTrips, Rejected, AllValid, Accepted;
  }

  lemma FirstBatchTables(a: Event, b: Event, one: string)
    requires AllValid(EventSet([a, b])) && a.id == b.id && a != b && a.trip == Some(one) && one != ""
    ensures var first := Bulk(EMPTY, [a, b], 0); first.keys == map[] && first.trips == map[]
  {
    hide *;
    assert EMPTY.keys == map[] by { EmptyIsEmpty(); }
    TwoCopiesReject(EMPTY, a, b, one);
    NothingAccepted([a, b]);
  }

  lemma EmptyIsEmpty()
    ensures EMPTY.keys == map[] && EMPTY.trips == map[] && EMPTY.conflicts == map[]
  {}

  lemma FirstBatchRow(a: Event, b: Event, one: string)
    requires AllValid(EventSet([a, b])) && a.id == b.id && a != b && a.trip == Some(one) && b.trip == Some(one) && one != ""
    ensures var rows := Bulk(EMPTY, [a, b], 0).conflicts;
            && ConflictKey(0, a.id, CopyConflict(0)) in rows
            && forall k :: k in rows ==> rows[k].trip == Some(one) && k.eventId == a.id && (rows[k] == ConflictOf(a) || rows[k] == ConflictOf(b))
  {
    hide *;
    EmptyIsEmpty();
    TwoCopiesReject(EMPTY, a, b, one);
    CopiesOfTwo(a, b);
    var events, batch := [a, b], EventSet([a, b]);
    assert events[0] == a && forall e :: e in events ==> e == a || e == b;
    BulkConflicts(EMPTY, events);
    FirstCopyRow(events, BulkIds(EMPTY, batch), BulkTrips(EMPTY, batch), a);
    CopyRowsShare(events, a.id, one, BulkIds(EMPTY, batch), BulkTrips(EMPTY, batch));
  }

  lemma CopyRowsShare(events: seq<Event>, id: string, trip: string, ids: set<string>, trips: set<string>)
    requires forall e :: e in events ==> e.id == id && e.trip == Some(trip)
    ensures var rows := CopyConflicts(events, 0, ids, trips) + EMPTY.conflicts;
            && rows == CopyConflicts(events, 0, ids, trips)
            && forall k :: k in rows ==> rows[k].trip == Some(trip) && k.eventId == id && exists e :: e in events && rows[k] == ConflictOf(e)
  {
    hide CopyConflicts;
    var rows := CopyConflicts(events, 0, ids, trips);
    assert rows + EMPTY.conflicts == rows;
    forall k | k in rows ensures rows[k].trip == Some(trip) && k.eventId == id && exists e :: e in events && rows[k] == ConflictOf(e) {
      RowsOfCopies(events, id, Some(trip), ids, trips, k);
    }
  }

  lemma CopiesOfTwo(a: Event, b: Event)
    requires a.id == b.id
    ensures Copies([a, b], a.id) == [a, b] && Copies([a], a.id) == [a]
  {
    assert [a, b][..1] == [a] && [a][..0] == [];
    assert Copies([], a.id) == [];
  }

  lemma LostRow(first: Tables, a: Event, c: Event, one: string, two: string)
    requires AllValid(EventSet([c])) && first.keys == map[] && first.trips == map[] && c.id == a.id
    requires ConflictKey(0, a.id, CopyConflict(0)) in first.conflicts
    requires forall k :: k in first.conflicts ==> first.conflicts[k].trip == Some(one) && k.eventId == a.id
    requires one != two
    ensures two !in BlockedTrips(Bulk(first, [c], 0).conflicts)
  {
    hide *;
    SecondBatchRecordsNothing(first, c);
    OnlyOneTrip(first.conflicts, one, two);
  }

  lemma SecondBatchRecordsNothing(first: Tables, c: Event)
    requires AllValid(EventSet([c])) && first.keys == map[] && first.trips == map[]
    requires ConflictKey(0, c.id, CopyConflict(0)) in first.conflicts
    ensures Bulk(first, [c], 0).conflicts == first.conflicts
  {
    var events, batch := [c], EventSet([c]);
    CopiesOfTwo(c, c);
    hide *;
    BulkConflicts(first, events);
    SecondRowDropped(first.conflicts, c, BulkIds(first, batch), BulkTrips(first, batch));
  }

  /** In the same way a reused batch id can lose a day: the trip is blocked, but no row of the day of its third copy
      says so, and a reader of that day alone does not learn of it. */
  lemma {:induction false} ReusedBatchIdLosesDay(a: Event, b: Event, c: Event, trip: string)
    requires AllValid({a, b, c}) && a.id == b.id == c.id && a != b && c != a && c != b && c.completed
    requires a.trip == b.trip == c.trip == Some(trip) && trip != "" && DayOf(a.ts) == DayOf(b.ts) != DayOf(c.ts)
    ensures var first := Bulk(EMPTY, [a, b], 0);
            && trip in BlockedTrips(first.conflicts)
            && AllValid(EventSet([c])) && !ConflictDays.TripOnDay(Bulk(first, [c], 0).conflicts, c)
    ensures HasBadTrip({a, b, c}, c)
  {
    CopyTaints(a, c, {a, b, c}, trip);
    PartsAreValid(a, b, c);
    hide *;
    FirstBatchTables(a, b, trip);
    FirstBatchRow(a, b, trip);
    var first := Bulk(EMPTY, [a, b], 0);
    SecondBatchRecordsNothing(first, c);
    RowsOfOneDay(first.conflicts, ConflictKey(0, a.id, CopyConflict(0)), a, b, c, trip);
  }

  lemma CopyTaints(a: Event, c: Event, seen: set<Event>, trip: string)
    requires a in seen && c in seen && a.id == c.id && a != c && c.trip == Some(trip)
    ensures HasBadTrip(seen, c)
  {
    assert BadId(seen, c.id);
  }

  lemma PartsAreValid(a: Event, b: Event, c: Event)
    requires AllValid({a, b, c})
    ensures AllValid(EventSet([a, b])) && AllValid(EventSet([c]))
  {}

  lemma RowsOfOneDay(rows: Conflicts, k: ConflictKey, a: Event, b: Event, c: Event, trip: string)
    requires k in rows && forall k :: k in rows ==> rows[k].trip == Some(trip) && (rows[k] == ConflictOf(a) || rows[k] == ConflictOf(b))
    requires DayOf(a.ts) == DayOf(b.ts) != DayOf(c.ts)
    ensures trip in BlockedTrips(rows) && !ConflictDays.TripOnDay(rows, c)
  {
    assert rows[k].trip == Some(trip);
  }

  lemma SecondRowDropped(conflicts: Conflicts, c: Event, ids: set<string>, trips: set<string>)
    requires ConflictKey(0, c.id, CopyConflict(0)) in conflicts
    ensures CopyConflicts([c], 0, ids, trips) + conflicts == conflicts
  {
    hide CopyConflicts;
    forall k | k in CopyConflicts([c], 0, ids, trips) ensures k in conflicts {
      RowsOfCopies([c], c.id, c.trip, ids, trips, k);
      CopiesOfTwo(c, c);
    }
  }

  lemma OnlyOneTrip(conflicts: Conflicts, one: string, two: string)
    requires one != two && forall k :: k in conflicts ==> conflicts[k].trip == Some(one)
    ensures two !in BlockedTrips(conflicts)
  {}

  /** Complete a trip, contradict the completion, then deliver an event that is really called `prior:` plus that trip: it is
      live among everything delivered, and yet it is taken for a conflicting one and never contributes. */
  lemma {:induction false} PriorPrefixIsMistaken(a: Event, b: Event, e: Event, p: Position, q: Position, r: Position, trip: string)
    requires AllValid({a, b}) && a.id != b.id && p != q && a.completed && b.completed
    requires a.trip == Some(trip) && b.trip == Some(trip) && SignatureOf(a) != SignatureOf(b)
    requires e.id == PriorId(trip) && e.trip.None?
    ensures var t := Merge(Merge(EMPTY, map[p := a], 0), map[q := b], 1);
            && e.id in ConflictIds(t, {e}) && e.id !in Merge(t, map[r := e], 2).contributions
    ensures Live({a, b, e}, e)
  {
    hide Merge, ConflictIds;
    var topic: Topic := map[p := a, q := b];
    var first, second := Delivery.Staged(0, map[p := a]), Delivery.Staged(1, map[q := b]);
    var ds := [first, second];
    OneRow(p, a);
    OneRow(q, b);
    OneRow(r, e);
    TwoDeliveries(first, second, a, b, topic);
    assert Contradicted({a, b}, trip);
    ArrivesLive(ds, a, trip);
    PriorRowsMarkWithdrawnTrips(ds, topic, trip);
    var t := Run(ds);
    RecordedIsMistaken(t, e);
    MistakenIsRejected(t, map[r := e], e);
    assert Valid(a) && Valid(b);
    PriorIdHasPrefix();
    assert !BadId({a, b, e}, e.id);
  }

  lemma OneRow(p: Position, e: Event)
    ensures var rows: Topic := map[p := e]; rows.Values == {e}
  {
    var rows: Topic := map[p := e];
    assert rows[p] == e;
  }

  lemma TwoDeliveries(first: Delivery, second: Delivery, a: Event, b: Event, topic: Topic)
    requires first.Staged? && second.Staged? && AllValid({a, b})
    requires first.rows.Values == {a} && second.rows.Values == {b}
    requires FromTopic(first.rows, topic) && FromTopic(second.rows, topic)
    ensures var ds := [first, second];
            && Wellformed(ds) && Admissible(ds, topic) && Seen(ds) == {a, b} && Seen(ds[..1]) == {a}
            && Run(ds) == Merge(Merge(EMPTY, first.rows, first.batchId), second.rows, second.batchId)
  {
    hide Merge;
    var ds := [first, second];
    assert ds[..1] == [first] && [first][..0] == [];
    assert Wellformed([first]) && Wellformed([]);
    assert Run([first]) == Merge(EMPTY, first.rows, first.batchId);
    assert Admissible([first], topic) && Seen([first]) == {a};
  }

  lemma ArrivesLive(ds: seq<Delivery>, a: Event, trip: string)
    requires |ds| >= 1 && Seen(ds[..1]) == {a} && a.completed && a.trip == Some(trip)
    ensures OnceCompleted(ds, trip)
  {
    assert Live({a}, a);
    assert LiveAfterFirst(ds, 1, a);
    assert OnceLive(ds, a);
  }

  lemma RecordedIsMistaken(t: Tables, e: Event)
    requires e.id in ConflictedIds(t.conflicts)
    ensures e.id in ConflictIds(t, {e})
  {}

  lemma MistakenIsRejected(t: Tables, rows: Topic, e: Event)
    requires rows.Values == {e} && e.id in ConflictIds(t, {e})
    ensures e.id !in Merge(t, rows, 2).contributions
  {
    AcceptedIsCoherent(t, rows.Values);
    hide ConflictIds, BadTrips, RecordConflicts;
  }

  /** An empty trip id blocks its other events in the staged merge, but not in `bulk_serve`, where it does not count as
      a trip: the two forms agree only as long as nobody sends one. */
  lemma {:induction false} EmptyTripSplitsThePaths(a: Event, b: Event, c: Event, p: Position, q: Position, r: Position)
    requires AllValid({a, b, c}) && a.id == b.id && a != b && c.id != a.id && p != q && q != r && p != r
    requires a.trip == Some("") && b.trip == Some("") && c.trip == Some("")
    ensures c.id !in Merge(EMPTY, map[p := a, q := b, r := c], 0).contributions
    ensures AllValid(EventSet([a, b, c])) && c.id in Bulk(EMPTY, [a, b, c], 0).contributions
  {
    hide Merge, Bulk;
    ThreeRows(a, b, c, p, q, r);
    ThreeEvents(a, b, c);
    EmptyTripIsStaged(a, b, c);
    EmptyTripIsNotBulk(a, b, c);
    StagedWithout(map[p := a, q := b, r := c], c);
    BulkWith([a, b, c], c);
  }

  lemma ThreeRows(a: Event, b: Event, c: Event, p: Position, q: Position, r: Position)
    requires p != q && q != r && p != r
    ensures var rows: Topic := map[p := a, q := b, r := c]; rows.Values == {a, b, c}
  {
    var rows: Topic := map[p := a, q := b, r := c];
    assert rows[p] == a && rows[q] == b && rows[r] == c;
  }

  lemma ThreeEvents(a: Event, b: Event, c: Event)
    ensures EventSet([a, b, c]) == {a, b, c}
  {
    assert [a, b, c][0] == a && [a, b, c][1] == b && [a, b, c][2] == c;
  }

  /** Only accepted events of the batch become contributions of an empty table. */
  lemma StagedWithout(rows: Topic, c: Event)
    requires c in rows.Values && c.trip == Some("") && "" in BadTrips(EMPTY, rows.Values)
    requires forall e :: e in rows.Values && e.id == c.id ==> e.trip == Some("")
    ensures c.id !in Merge(EMPTY, rows, 0).contributions
  {
    hide BadTrips, ConflictIds, RecordConflicts;
  }

  lemma BulkWith(events: seq<Event>, c: Event)
    requires AllValid(EventSet(events))
    requires var batch := EventSet(events); c in Accepted(EMPTY.keys, batch, BulkIds(EMPTY, batch), BulkTrips(EMPTY, batch))
    ensures c.id in Bulk(EMPTY, events, 0).contributions
  {
    hide BulkIds, BulkTrips, Rejected, Accepted;
  }

  lemma EmptyTripIsStaged(a: Event, b: Event, c: Event)
    requires a.id == b.id && a != b && a.trip == Some("") && c.trip == Some("")
    ensures "" in BadTrips(EMPTY, {a, b, c})
  {
    assert a.id in ConflictIds(EMPTY, {a, b, c});
  }

  lemma EmptyTripIsNotBulk(a: Event, b: Event, c: Event)
    requires AllValid({a, b, c}) && a.id == b.id && c.id != a.id
    requires a.trip == Some("") && b.trip == Some("") && c.trip == Some("")
    ensures c in Accepted(EMPTY.keys, {a, b, c}, BulkIds(EMPTY, {a, b, c}), BulkTrips(EMPTY, {a, b, c}))
  {
    var batch := {a, b, c};
    assert c.id !in BulkIds(EMPTY, batch);
    assert "" !in BulkTrips(EMPTY, batch);
  }

  lemma TwoEventsSorted(a: Event, b: Event)
    requires a.ts < b.ts && a.id != b.id
    ensures Sorted([a, b]) && OnePerId(EventSet([a, b])) && EventSet([a, b]) == {a, b}
  {
    forall e ensures e in [a, b] <==> e == a || e == b {
      assert [a, b][0] == a && [a, b][1] == b;
    }
  }

  lemma OneLateOneNew(row: StateRow, late: Event, next: Event)
    requires late.ts < row.ts < next.ts
    ensures LateCount(Some(row), [late, next]) == 1
  {
    assert [late, next][..1] == [late] && [late][..0] == [];
    assert LateCount(Some(row), [late]) == 1;
  }

  /** A busy event that arrives late is ignored by the fold, and the set-based idle start is the first idle event after
      it: the forms agree only if that happens to be the stored start. */
  lemma LateBusyEventSplitsThePaths(row: StateRow, late: Event, idle: Event)
    requires row.status == Idle && row.idleSince.Some? && row.idleSince.value <= row.ts
    requires late.status != Idle && late.ts < row.ts && idle.status == Idle && idle.ts > row.ts && late.id != idle.id
    ensures !FormsAgree(Some(row), [late, idle]) && SetBased(Some(row), EventSet([late, idle])) != Fold(Some(row), [late, idle])
  {
    var events := [late, idle];
    TwoEventsSorted(late, idle);
    OneLateOneNew(row, late, idle);
    assert events[..1] == [late];
    assert RunStart([late]) == 1 && RunStart(events) == 1;
    assert LaterIdle(events) == {idle};
    assert MinTs({idle}) == Some(idle.ts);
    SetBasedMeetsFold(Some(row), events);
  }

  /** An idle event from before the stored idle start is ignored by the fold and moves the set-based start back. */
  lemma LateIdleEventSplitsThePaths(row: StateRow, late: Event, idle: Event)
    requires row.status == Idle && row.idleSince.Some? && row.idleSince.value <= row.ts
    requires late.status == Idle && late.ts < row.ts && idle.status == Idle && idle.ts > row.ts && late.id != idle.id
    ensures FormsAgree(Some(row), [late, idle]) <==> row.idleSince.value <= late.ts
    ensures SetBased(Some(row), EventSet([late, idle])) == Fold(Some(row), [late, idle]) <==> row.idleSince.value <= late.ts
  {
    var events := [late, idle];
    TwoEventsSorted(late, idle);
    OneLateOneNew(row, late, idle);
    assert events[..1] == [late] && [late][..0] == [];
    assert RunStart([late]) == 0 && RunStart(events) == 0;
    SetBasedMeetsFold(Some(row), events);
  }

  /** An idle event at the instant of the last busy one leaves an idle row without a start. */
  lemma TieLeavesUnknownStart(busy: Event, idle: Event)
    requires busy.status != Idle && idle.status == Idle && busy.ts == idle.ts && Text.Less(busy.id, idle.id) && busy.id != idle.id
    ensures var based := SetBased(None, {busy, idle});
            based.Some? && based.value.status == Idle && based.value.idleSince == None && UnknownStart(based, [idle])
  {
    assert Latest({busy, idle}) == idle by {
      assert Before(busy, idle);
      BeforeIsTotal(busy, idle);
    }
    assert BusyOf({busy, idle}) == {busy};
    assert MaxTs({busy}) == Some(busy.ts);
    assert (set e | e in IdleOf({busy, idle}) && e.ts > busy.ts) == {};
  }
}
