/** Whole runs of the serving merge: any deliveries, in any order, split or repetition. */
module ServingRuns {
  import opened Events
  import opened Reference
  import opened Ledgers
  import opened LedgerProof
  import opened MergeProof
  import opened BulkLedgers

  /** One committed micro-batch. Spark batch ids may restart, so they need not be distinct for staged merges. */
  datatype Delivery = Staged(batchId: int, rows: Topic) | Copied(batchId: int, events: seq<Event>)

  function Delivered(d: Delivery): set<Event> {
    match d
    case Staged(_, rows) => rows.Values
    case Copied(_, events) => EventSet(events)
  }

  function Seen(ds: seq<Delivery>): set<Event> {
    if ds == [] then {} else Seen(ds[..|ds| - 1]) + Delivered(ds[|ds| - 1])
  }

  predicate Wellformed(ds: seq<Delivery>) {
    forall d :: d in ds ==> AllValid(Delivered(d))
  }

  function Deliver(t: Tables, d: Delivery): Tables
    requires AllValid(Delivered(d))
  {
    match d
    case Staged(batchId, rows) => Merge(t, rows, batchId)
    case Copied(batchId, events) => Bulk(t, events, batchId)
  }

  function Run(ds: seq<Delivery>): Tables
    requires Wellformed(ds)
  {
    if ds == [] then EMPTY else Deliver(Run(ds[..|ds| - 1]), ds[|ds| - 1])
  }

  /** Staged rows come from the topic; a row-by-row batch meets the condition under which it does what a merge would do. */
  ghost predicate Admissible(ds: seq<Delivery>, topic: Topic)
    requires Wellformed(ds)
  {
    ds == [] ||
    var before, d := ds[..|ds| - 1], ds[|ds| - 1];
    && Admissible(before, topic)
    && match d
       case Staged(_, rows) => FromTopic(rows, topic)
       case Copied(batchId, events) =>
         Harmless(Run(before), events, batchId)
  }

  lemma {:induction false} SeenIsValid(ds: seq<Delivery>)
    requires Wellformed(ds)
    ensures AllValid(Seen(ds))
  {
    if ds != [] {
      SeenIsValid(ds[..|ds| - 1]);
    }
  }

  lemma {:induction false} BulkKeepsReasons(t: Tables, events: seq<Event>, batchId: int, topic: Topic)
    requires AllValid(EventSet(events)) && ReasonsDetermined(t.keys, t.conflicts, topic)
    ensures ReasonsDetermined(Bulk(t, events, batchId).keys, Bulk(t, events, batchId).conflicts, topic)
  {
    var ids, trips := BulkIds(t, EventSet(events)), BulkTrips(t, EventSet(events));
    var after := Bulk(t, events, batchId);
    RejectedRecordsCopies(t, events, batchId, ids, trips);
    BulkConflictsAre(t, events, batchId);
    hide BulkIds, BulkTrips, Rejected, ReasonsDetermined;
    CopiesKeepReasons(t, events, batchId, ids, trips, after.keys, Rejected(t, events, batchId, ids, trips), topic);
  }

  lemma {:induction false} CopiesKeepReasons(
    t: Tables, events: seq<Event>, batchId: int, ids: set<string>, trips: set<string>, keys: Keys, rows: Conflicts, topic: Topic)
    requires ReasonsDetermined(t.keys, t.conflicts, topic)
    requires RecordsCopies(t, events, batchId, ids, trips, rows)
    requires forall k :: k in t.keys ==> k in keys && keys[k] == t.keys[k]
    ensures ReasonsDetermined(keys, rows + t.conflicts, topic)
  {
    hide TripScope, Rejects;
    var after := rows + t.conflicts;
    forall k | k in after ensures ReasonDetermined(keys, topic, k, after[k]) {
      if k in t.conflicts {
        assert ReasonDetermined(t.keys, topic, k, t.conflicts[k]);
      } else {
        assert CopyRow(t, events, ids, trips, k, rows[k]);
      }
    }
  }

  lemma {:induction false} DeliverKeepsMirror(t: Tables, seen: set<Event>, d: Delivery, topic: Topic)
    requires Mirrors(t, seen) && ReasonsDetermined(t.keys, t.conflicts, topic) && AllValid(seen) && AllValid(Delivered(d))
    requires d.Staged? ==> FromTopic(d.rows, topic)
    requires d.Copied? ==> Harmless(t, d.events, d.batchId)
    ensures Mirrors(Deliver(t, d), seen + Delivered(d))
    ensures ReasonsDetermined(Deliver(t, d).keys, Deliver(t, d).conflicts, topic)
  {
    hide Mirrors, ReasonsDetermined, Harmless, Merge, Bulk, AllValid;
    match d {
      case Staged(batchId, rows) =>
        MergeKeepsMirror(t, seen, rows, batchId, topic);
        MergeKeepsReasons(t, rows, batchId, topic);
      case Copied(batchId, events) =>
        BulkKeepsMirror(t, seen, events, batchId);
        BulkKeepsReasons(t, events, batchId, topic);
    }
  }

  lemma EmptyMirrorsNothing(topic: Topic)
    ensures Mirrors(EMPTY, {}) && ReasonsDetermined(EMPTY.keys, EMPTY.conflicts, topic)
  {}

  /** After every admissible run the tables equal the from-scratch reference over everything delivered. */
  lemma {:induction false} RunMirrorsReference(ds: seq<Delivery>, topic: Topic)
    requires Wellformed(ds) && Admissible(ds, topic)
    ensures Mirrors(Run(ds), Seen(ds))
    ensures ReasonsDetermined(Run(ds).keys, Run(ds).conflicts, topic)
  {
    if ds == [] {
      EmptyMirrorsNothing(topic);
    } else {
      var before := ds[..|ds| - 1];
      RunMirrorsReference(before, topic);
      SeenIsValid(before);
      DeliverKeepsMirror(Run(before), Seen(before), ds[|ds| - 1], topic);
    }
  }

  lemma ContributionsAreLive(t: Tables, seen: set<Event>)
    requires ContributionsMirror(t, seen)
    ensures forall id :: id in t.contributions <==> exists e :: Live(seen, e) && e.id == id
  {
    forall id | id in t.contributions ensures exists e :: Live(seen, e) && e.id == id {
      assert Live(seen, t.contributions[id].fingerprint);
    }
  }

  lemma TripsAreLiveCompletions(t: Tables, seen: set<Event>)
    requires TripsMirror(t, seen)
    ensures forall trip :: trip in t.trips <==> exists e :: Live(seen, e) && e.completed && e.trip == Some(trip)
    ensures forall e :: Live(seen, e) && e.completed ==> t.trips[e.trip.value] == SignatureOf(e)
  {}

  /** The live set, the blocked trips and the completed trips of a run, read off the set of delivered events; and every
      real id in the conflict ledger was delivered and is bad or was only ever seen on bad trips. */
  lemma {:induction false} RunEqualsReference(ds: seq<Delivery>, topic: Topic)
    requires Wellformed(ds) && Admissible(ds, topic)
    ensures forall id :: id in Run(ds).contributions <==> exists e :: Live(Seen(ds), e) && e.id == id
    ensures forall trip :: trip in BlockedTrips(Run(ds).conflicts) <==> BadTrip(Seen(ds), trip)
    ensures forall trip :: trip in Run(ds).trips <==> exists e :: Live(Seen(ds), e) && e.completed && e.trip == Some(trip)
    ensures forall e :: Live(Seen(ds), e) && e.completed ==>
              TripIn(e.trip, Run(ds).trips.Keys) && Run(ds).trips[e.trip.value] == SignatureOf(e)
    ensures forall id :: id in ConflictedIds(Run(ds).conflicts) && !(PRIOR <= id) ==> Justified(Seen(ds), id)
  {
    RunMirrorsReference(ds, topic);
    ContributionsAreLive(Run(ds), Seen(ds));
    TripsAreLiveCompletions(Run(ds), Seen(ds));
  }

  /** Runs that deliver the same events end with the same live set, blocked trips and completed trips. */
  lemma {:induction false} OrderAndSplitDoNotMatter(ds: seq<Delivery>, es: seq<Delivery>, topic: Topic)
    requires Wellformed(ds) && Admissible(ds, topic) && Wellformed(es) && Admissible(es, topic)
    requires Seen(ds) == Seen(es)
    ensures Run(ds).contributions == Run(es).contributions
    ensures Run(ds).trips == Run(es).trips
    ensures BlockedTrips(Run(ds).conflicts) == BlockedTrips(Run(es).conflicts)
  {
    RunMirrorsReference(ds, topic);
    RunMirrorsReference(es, topic);
    SameMirrorSameViews(Run(ds), Run(es), Seen(ds));
  }

  lemma SameMirrorSameViews(a: Tables, b: Tables, seen: set<Event>)
    requires Mirrors(a, seen) && Mirrors(b, seen)
    ensures a.contributions == b.contributions && a.trips == b.trips
    ensures BlockedTrips(a.conflicts) == BlockedTrips(b.conflicts)
  {
    ContributionsAgree(a, b, seen);
    TripsAgree(a, b, seen);
  }

  lemma ContributionsInclude(a: Tables, b: Tables, seen: set<Event>)
    requires ContributionsMirror(a, seen) && ContributionsMirror(b, seen)
    ensures forall k :: k in a.contributions ==> k in b.contributions && a.contributions[k] == b.contributions[k]
  {
    forall k | k in a.contributions ensures k in b.contributions && a.contributions[k] == b.contributions[k] {
      var e := a.contributions[k].fingerprint;
      assert Live(seen, e) && e.id == k;
    }
  }

  lemma ContributionsAgree(a: Tables, b: Tables, seen: set<Event>)
    requires ContributionsMirror(a, seen) && ContributionsMirror(b, seen)
    ensures a.contributions == b.contributions
  {
    ContributionsInclude(a, b, seen);
    ContributionsInclude(b, a, seen);
  }

  lemma TripsAgree(a: Tables, b: Tables, seen: set<Event>)
    requires TripsMirror(a, seen) && TripsMirror(b, seen)
    ensures a.trips == b.trips
  {
    hide TripsMirror;
    TripsInclude(a, b, seen);
    TripsInclude(b, a, seen);
  }

  lemma TripsInclude(a: Tables, b: Tables, seen: set<Event>)
    requires TripsMirror(a, seen) && TripsMirror(b, seen)
    ensures forall trip :: trip in a.trips ==> trip in b.trips && a.trips[trip] == b.trips[trip]
  {
    hide Live;
    forall trip | trip in a.trips ensures trip in b.trips && a.trips[trip] == b.trips[trip] {
      var e :| Live(seen, e) && e.completed && e.trip == Some(trip);
    }
  }

  /** Redelivering what was already delivered changes none of the views. */
  lemma {:induction false} ReplayIsInvisible(ds: seq<Delivery>, d: Delivery, topic: Topic)
    requires Wellformed(ds + [d]) && Wellformed(ds) && Admissible(ds, topic) && Admissible(ds + [d], topic)
    requires Delivered(d) <= Seen(ds)
    ensures Run(ds + [d]).contributions == Run(ds).contributions
    ensures Run(ds + [d]).trips == Run(ds).trips
    ensures BlockedTrips(Run(ds + [d]).conflicts) == BlockedTrips(Run(ds).conflicts)
  {
    hide Run, Admissible, Wellformed, Delivered;
    assert (ds + [d])[..|ds|] == ds;
    assert Seen(ds + [d]) == Seen(ds) + Delivered(d) == Seen(ds);
    OrderAndSplitDoNotMatter(ds + [d], ds, topic);
  }

  /** `stream_event_keys` is append-only. */
  lemma {:induction false} KeysAreAppendOnly(ds: seq<Delivery>, more: seq<Delivery>)
    requires Wellformed(ds) && Wellformed(ds + more)
    ensures forall k :: k in Run(ds).keys ==> k in Run(ds + more).keys && Run(ds + more).keys[k] == Run(ds).keys[k]
  {
    if more == [] {
      assert ds + more == ds;
    } else {
      var most := more[..|more| - 1];
      assert (ds + more)[..|ds + more| - 1] == ds + most;
      assert forall d :: d in ds + most ==> d in ds + more;
      KeysAreAppendOnly(ds, most);
    }
  }

  /* ---- what the key ledger holds ---- */

  /** The event was live after some delivery. */
  ghost predicate OnceLive(ds: seq<Delivery>, e: Event) {
    exists i :: 0 <= i <= |ds| && LiveAfterFirst(ds, i, e)
  }

  ghost predicate LiveAfterFirst(ds: seq<Delivery>, i: nat, e: Event)
    requires i <= |ds|
  {
    Live(Seen(ds[..i]), e)
  }

  lemma {:induction false} OnceLiveUnfolds(ds: seq<Delivery>, e: Event)
    requires ds != []
    ensures OnceLive(ds, e) <==> OnceLive(ds[..|ds| - 1], e) || Live(Seen(ds), e)
  {
    hide Live, Seen;
    var before := ds[..|ds| - 1];
    assert ds[..|ds|] == ds;
    if OnceLive(before, e) {
      var i :| 0 <= i <= |before| && LiveAfterFirst(before, i, e);
      assert before[..i] == ds[..i];
      assert LiveAfterFirst(ds, i, e);
    }
    if OnceLive(ds, e) {
      var i :| 0 <= i <= |ds| && LiveAfterFirst(ds, i, e);
      if i < |ds| {
        assert before[..i] == ds[..i];
        assert LiveAfterFirst(before, i, e);
      }
    }
    if Live(Seen(ds), e) {
      assert LiveAfterFirst(ds, |ds|, e);
    }
  }

  /** What blocking does to the keys: the new ones are the events that become live. */
  lemma {:induction false} BlockedKeys(
    t: Tables, seen: set<Event>, batch: set<Event>, ids: set<string>, trips: set<string>, conflicts: Conflicts, batchId: int)
    requires Mirrors(t, seen) && Blocks(t, seen, batch, ids, trips) && AllValid(seen) && AllValid(batch)
    requires OnePerId(Accepted(t.keys, batch, ids, trips)) && CompletionsAgree(Accepted(t.keys, batch, ids, trips))
    ensures KeysGain(t.keys, After(t, batch, ids, trips, conflicts, batchId).keys, seen, seen + batch)
  {
    var accepted, keys := Accepted(t.keys, batch, ids, trips), After(t, batch, ids, trips, conflicts, batchId).keys;
    forall e | Live(seen + batch, e) ensures Live(seen, e) || (e.id in keys && keys[e.id].fingerprint == e) {
      LiveAfter(t, seen, batch, ids, trips, e);
    }
    forall k | k in keys && k !in t.keys ensures Live(seen + batch, keys[k].fingerprint) && keys[k].fingerprint.id == k {
      var e :| e in accepted && e.id == k;
      assert keys[k] == KeyOf(e, batchId);
      LiveAfter(t, seen, batch, ids, trips, e);
    }
  }

  ghost predicate KeysGain(before: Keys, after: Keys, seen: set<Event>, all: set<Event>) {
    && (forall k :: k in before ==> k in after && after[k] == before[k])
    && (forall e :: Live(all, e) ==> Live(seen, e) || (e.id in after && after[e.id].fingerprint == e))
    && (forall k :: k in after && k !in before ==> Live(all, after[k].fingerprint) && after[k].fingerprint.id == k)
  }

  lemma {:induction false} DeliveredKeys(t: Tables, seen: set<Event>, d: Delivery)
    requires Mirrors(t, seen) && AllValid(seen) && AllValid(Delivered(d))
    requires d.Copied? ==> Harmless(t, d.events, d.batchId)
    ensures KeysGain(t.keys, Deliver(t, d).keys, seen, seen + Delivered(d))
  {
    var batch := Delivered(d);
    var ids, trips := ConflictIds(t, batch), BadTrips(t, batch);
    StageBlocks(t, seen, batch);
    hide KeysGain, Mirrors, Blocks, Merge, Bulk, ConflictIds, BadTrips, Accepted, AllValid, OnePerId, CompletionsAgree, After;
    match d {
      case Staged(batchId, rows) =>
        MergeIsAfter(t, rows, batchId);
        BlockedKeys(t, seen, batch, ids, trips, Merge(t, rows, batchId).conflicts, batchId);
      case Copied(batchId, events) =>
        BulkIsStagedBlocking(t, seen, events, batchId);
        BlockedKeys(t, seen, batch, ids, trips, Bulk(t, events, batchId).conflicts, batchId);
    }
  }

  /** The key ledger holds exactly the events that were live after some delivery, under their ids. */
  lemma {:induction false} KeysAreOnceLive(ds: seq<Delivery>, topic: Topic)
    requires Wellformed(ds) && Admissible(ds, topic)
    ensures forall id :: id in Run(ds).keys ==> OnceLive(ds, Run(ds).keys[id].fingerprint) && Run(ds).keys[id].fingerprint.id == id
    ensures forall e :: OnceLive(ds, e) ==> e.id in Run(ds).keys && Run(ds).keys[e.id].fingerprint == e
  {
    if ds == [] {
      NothingOnceLive(ds);
    } else {
      var before, d := ds[..|ds| - 1], ds[|ds| - 1];
      KeysAreOnceLive(before, topic);
      RunMirrorsReference(before, topic);
      SeenIsValid(before);
      DeliveredKeys(Run(before), Seen(before), d);
      hide Live, Mirrors, Deliver, Delivered, OnceLive, Admissible;
      var keys := Run(ds).keys;
      forall id | id in keys ensures OnceLive(ds, keys[id].fingerprint) && keys[id].fingerprint.id == id {
        OnceLiveUnfolds(ds, keys[id].fingerprint);
      }
      forall e | OnceLive(ds, e) ensures e.id in keys && keys[e.id].fingerprint == e {
        OnceLiveUnfolds(ds, e);
        LiveNowIsOnceLive(before, e);
      }
    }
  }

  lemma LiveNowIsOnceLive(ds: seq<Delivery>, e: Event)
    ensures Live(Seen(ds), e) ==> OnceLive(ds, e)
  {
    hide Live, Seen;
    assert ds[..|ds|] == ds;
    assert Live(Seen(ds), e) ==> LiveAfterFirst(ds, |ds|, e);
  }

  lemma NothingOnceLive(ds: seq<Delivery>)
    requires ds == []
    ensures forall e :: !OnceLive(ds, e)
  {
    assert ds[..0] == [];
  }

  /** An event gets its key exactly if it is live right after the delivery that brings it first: that, and nothing later,
      is what depends on order and split. */
  lemma {:induction false} KeyIsDecidedOnArrival(ds: seq<Delivery>, i: nat, e: Event)
    requires 0 < i <= |ds| && e in Seen(ds[..i]) && e !in Seen(ds[..i - 1])
    ensures OnceLive(ds, e) <==> Live(Seen(ds[..i]), e)
  {
    if OnceLive(ds, e) {
      var j :| 0 <= j <= |ds| && LiveAfterFirst(ds, j, e);
      if j < i {
        SeenGrows(ds, j, i - 1);
      }
      SeenGrows(ds, i, j);
      assert Seen(ds[..j]) == Seen(ds[..i]) + Seen(ds[..j]);
      LiveShrinks(Seen(ds[..i]), Seen(ds[..j]), e);
    }
    if Live(Seen(ds[..i]), e) {
      assert LiveAfterFirst(ds, i, e);
    }
  }

  lemma {:induction false} SeenGrows(ds: seq<Delivery>, i: nat, j: nat)
    requires i <= j <= |ds|
    ensures Seen(ds[..i]) <= Seen(ds[..j])
    decreases j
  {
    if i < j {
      SeenGrows(ds, i, j - 1);
      assert ds[..j][..|ds[..j]| - 1] == ds[..j - 1];
    }
  }

  /* ---- the ids the ledger invents ---- */

  /** Some completion of the trip was live after some delivery. */
  ghost predicate OnceCompleted(ds: seq<Delivery>, trip: string) {
    exists e :: OnceLive(ds, e) && e.completed && e.trip == Some(trip)
  }

  lemma {:induction false} LedgerGain(t: Tables, seen: set<Event>, d: Delivery, topic: Topic, trip: string)
    requires Mirrors(t, seen) && AllValid(seen) && AllValid(Delivered(d)) && ReasonsDetermined(t.keys, t.conflicts, topic)
    requires d.Staged? ==> FromTopic(d.rows, topic)
    requires d.Copied? ==> Harmless(t, d.events, d.batchId)
    ensures PriorId(trip) in ConflictedIds(Deliver(t, d).conflicts) <==>
              PriorId(trip) in ConflictedIds(t.conflicts) || (trip in t.trips && trip in BadTrips(t, Delivered(d)))
  {
    var batch := Delivered(d);
    DeliverMeans(t, d);
    match d {
      case Staged(batchId, rows) => MergeConflictsAgree(t, rows, batchId, topic);
      case Copied(batchId, events) => BulkIsStagedBlocking(t, seen, events, batchId);
    }
    hide *;
    OnlyWithdrawnAreInvented(t, batch, ConflictIds(t, batch), BadTrips(t, batch), trip);
  }

  lemma DeliverMeans(t: Tables, d: Delivery)
    requires AllValid(Delivered(d))
    ensures d.Staged? ==> Deliver(t, d) == Merge(t, d.rows, d.batchId)
    ensures d.Copied? ==> AllValid(EventSet(d.events)) && Deliver(t, d) == Bulk(t, d.events, d.batchId)
    ensures Delivered(d) == if d.Staged? then d.rows.Values else EventSet(d.events)
  {
    hide Merge, Bulk;
  }

  lemma OnlyWithdrawnAreInvented(t: Tables, batch: set<Event>, ids: set<string>, trips: set<string>, trip: string)
    requires AllValid(batch)
    ensures PriorId(trip) in RejectedIds(t, batch, ids, trips) <==> trip in t.trips && trip in trips
  {
    PriorIdHasPrefix();
    PriorIdIsInjective();
    forall e | e in batch ensures e.id != PriorId(trip) {
      assert Valid(e);
    }
  }

  /** An event of a trip that is not bad does not die. */
  lemma {:induction false} OnceLiveStaysLive(ds: seq<Delivery>, e: Event)
    requires OnceLive(ds, e) && e.trip.Some? && !BadTrip(Seen(ds), e.trip.value)
    ensures Live(Seen(ds), e)
  {
    var i :| 0 <= i <= |ds| && LiveAfterFirst(ds, i, e);
    SeenGrows(ds, i, |ds|);
    assert ds[..|ds|] == ds;
    assert e in Seen(ds);
    assert !Tainted(Seen(ds), e.trip.value);
  }

  /** A live completion of a trip that is not bad yet is stored. */
  lemma {:induction false} OnceCompletedIsStored(ds: seq<Delivery>, topic: Topic, trip: string)
    requires Wellformed(ds) && Admissible(ds, topic) && OnceCompleted(ds, trip) && !BadTrip(Seen(ds), trip)
    ensures trip in Run(ds).trips
  {
    RunMirrorsReference(ds, topic);
    var t := Run(ds);
    assert TripsMirror(t, Seen(ds));
    hide OnceLive, Admissible, Wellformed, BadTrip, Live, Seen, Run;
    var e :| OnceLive(ds, e) && e.completed && e.trip == Some(trip);
    OnceLiveStaysLive(ds, e);
  }

  /** The conflict ledger holds a `prior:` row for a trip exactly if the trip is bad and was completed before that. */
  lemma {:induction false} PriorRowsMarkWithdrawnTrips(ds: seq<Delivery>, topic: Topic, trip: string)
    requires Wellformed(ds) && Admissible(ds, topic)
    ensures PriorId(trip) in ConflictedIds(Run(ds).conflicts) <==> BadTrip(Seen(ds), trip) && OnceCompleted(ds, trip)
  {
    if ds == [] {
      NothingOnceLive(ds);
    } else {
      var before, d := ds[..|ds| - 1], ds[|ds| - 1];
      var t, seen := Run(before), Seen(before);
      PriorRowsMarkWithdrawnTrips(before, topic, trip);
      RunMirrorsReference(before, topic);
      SeenIsValid(before);
      LedgerGain(t, seen, d, topic, trip);
      hide OnceLive, Run, Admissible, Wellformed, Deliver, ConflictedIds;
      assert Run(ds) == Deliver(t, d) by { RunUnfolds(ds); }
      OnceCompletedGrows(ds, trip);
      if BadTrip(seen, trip) {
        BadTripGrows(seen, Delivered(d), trip);
      } else {
        NewlyBadExactly(t, seen, Delivered(d), trip);
        if OnceCompleted(before, trip) {
          OnceCompletedIsStored(before, topic, trip);
        }
        if trip in t.trips {
          StoredWasCompleted(before, t, trip);
        }
      }
    }
  }

  lemma RunUnfolds(ds: seq<Delivery>)
    requires ds != [] && Wellformed(ds)
    ensures Wellformed(ds[..|ds| - 1]) && AllValid(Delivered(ds[|ds| - 1]))
    ensures Run(ds) == Deliver(Run(ds[..|ds| - 1]), ds[|ds| - 1])
  {
    hide Deliver;
  }

  /** Bad now and never completed while live before: then never completed while live at all. */
  lemma {:induction false} OnceCompletedGrows(ds: seq<Delivery>, trip: string)
    requires ds != []
    ensures OnceCompleted(ds[..|ds| - 1], trip) ==> OnceCompleted(ds, trip)
    ensures BadTrip(Seen(ds), trip) && OnceCompleted(ds, trip) ==> OnceCompleted(ds[..|ds| - 1], trip)
  {
    hide OnceLive, Seen;
    forall e ensures OnceLive(ds, e) <==> OnceLive(ds[..|ds| - 1], e) || Live(Seen(ds), e) {
      OnceLiveUnfolds(ds, e);
    }
  }

  lemma NewlyBadExactly(t: Tables, seen: set<Event>, batch: set<Event>, trip: string)
    requires Mirrors(t, seen) && AllValid(batch) && !BadTrip(seen, trip)
    ensures trip in BadTrips(t, batch) <==> BadTrip(seen + batch, trip)
  {
    if BadTrip(seen + batch, trip) {
      BadTripIsCaught(t, seen, batch, trip);
    }
    if trip in BadTrips(t, batch) {
      BlockedTripIsBad(t, seen, batch, trip);
    }
  }

  lemma StoredWasCompleted(ds: seq<Delivery>, t: Tables, trip: string)
    requires TripsMirror(t, Seen(ds)) && trip in t.trips
    ensures OnceCompleted(ds, trip)
  {
    hide Live, Seen;
    var e :| Live(Seen(ds), e) && e.completed && e.trip == Some(trip);
    LiveNowIsOnceLive(ds, e);
  }

  /** Two runs over whatever deliveries end with the same identities under the same ids exactly if the same events were
      live at some point; and with the same ids exactly if events with the same ids were. */
  lemma {:induction false} SameKeysExactly(ds: seq<Delivery>, es: seq<Delivery>, topic: Topic)
    requires Wellformed(ds) && Admissible(ds, topic) && Wellformed(es) && Admissible(es, topic)
    ensures SameFingerprints(Run(ds).keys, Run(es).keys) <==> forall e :: OnceLive(ds, e) <==> OnceLive(es, e)
    ensures Run(ds).keys.Keys == Run(es).keys.Keys <==> forall id :: OnceLiveId(ds, id) <==> OnceLiveId(es, id)
  {
    hide *;
    KeysAreOnceLive(ds, topic);
    KeysAreOnceLive(es, topic);
    KeyedIds(Run(ds).keys, ds);
    KeyedIds(Run(es).keys, es);
    KeyedAlike(Run(ds).keys, ds, Run(es).keys, es);
    SameIdsMeans(Run(ds).keys.Keys, Run(es).keys.Keys, ds, es);
  }

  lemma SameIdsMeans(a: set<string>, b: set<string>, ds: seq<Delivery>, es: seq<Delivery>)
    requires forall id :: id in a <==> OnceLiveId(ds, id)
    requires forall id :: id in b <==> OnceLiveId(es, id)
    ensures a == b <==> forall id :: OnceLiveId(ds, id) <==> OnceLiveId(es, id)
  {
    hide OnceLiveId;
  }

  lemma KeyedAlike(a: Keys, ds: seq<Delivery>, b: Keys, es: seq<Delivery>)
    requires forall id :: id in a ==> OnceLive(ds, a[id].fingerprint) && a[id].fingerprint.id == id
    requires forall e :: OnceLive(ds, e) ==> e.id in a && a[e.id].fingerprint == e
    requires forall id :: id in b ==> OnceLive(es, b[id].fingerprint) && b[id].fingerprint.id == id
    requires forall e :: OnceLive(es, e) ==> e.id in b && b[e.id].fingerprint == e
    ensures SameFingerprints(a, b) <==> forall e :: OnceLive(ds, e) <==> OnceLive(es, e)
  {
    hide OnceLive;
    if forall e :: OnceLive(ds, e) <==> OnceLive(es, e) {
      forall id ensures id in a <==> id in b {
        if id in a { assert OnceLive(es, a[id].fingerprint); }
        if id in b { assert OnceLive(ds, b[id].fingerprint); }
      }
    }
  }

  lemma KeyedIds(keys: Keys, ds: seq<Delivery>)
    requires forall id :: id in keys ==> OnceLive(ds, keys[id].fingerprint) && keys[id].fingerprint.id == id
    requires forall e :: OnceLive(ds, e) ==> e.id in keys && keys[e.id].fingerprint == e
    ensures forall id :: id in keys <==> OnceLiveId(ds, id)
  {
    hide OnceLive;
  }

  ghost predicate OnceLiveId(ds: seq<Delivery>, id: string) {
    exists e :: OnceLive(ds, e) && e.id == id
  }

  predicate SameFingerprints(a: Keys, b: Keys) {
    a.Keys == b.Keys && forall id :: id in a ==> a[id].fingerprint == b[id].fingerprint
  }
}
