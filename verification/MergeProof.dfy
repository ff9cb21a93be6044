/** One merge step keeps the ledgers equal to the from-scratch reference. */
module MergeProof {
  import opened Events
  import opened Reference
  import opened Ledgers
  import opened LedgerProof

  /* ---- conflicting ids: caught when new, justified when reported ---- */

  lemma {:induction false} BadIdIsCaught(t: Tables, seen: set<Event>, batch: set<Event>, e: Event)
    requires Mirrors(t, seen)
    requires e in batch && BadId(seen + batch, e.id)
    ensures e.id in ConflictIds(t, batch)
  {
    var a, b :| a in seen + batch && b in seen + batch && a.id == e.id && b.id == e.id && a != b;
    var other := if a == e then b else a;
    if other in batch {
      assert other.id == e.id && other != e;
    } else if e.id in t.keys {
      if t.keys[e.id].fingerprint == e {
        assert e in seen && BadId(seen, e.id);
      }
    } else {
      assert e.id in ConflictedIds(t.conflicts) by { assert other.id == e.id; }
    }
  }

  lemma {:induction false} OldBadIdIsRecorded(t: Tables, seen: set<Event>, batch: set<Event>, e: Event)
    requires Mirrors(t, seen)
    requires e in seen && BadId(seen + batch, e.id)
    ensures e.id in ConflictIds(t, batch) || BadId(seen, e.id)
  {
    if f :| f in batch && f.id == e.id {
      BadIdIsCaught(t, seen, batch, f);
    } else {
      var a, b :| a in seen + batch && b in seen + batch && a.id == e.id && b.id == e.id && a != b;
      assert a in seen && b in seen;
    }
  }

  lemma {:induction false} ConflictIdIsJustified(t: Tables, seen: set<Event>, batch: set<Event>, id: string)
    requires Mirrors(t, seen) && !(PRIOR <= id)
    requires id in ConflictIds(t, batch)
    ensures Justified(seen + batch, id)
  {
    var all := seen + batch;
    var e :| e in batch && e.id == id;
    if a, b :| a in batch && b in batch && a.id == id && b.id == id && a != b {
      assert a in all && b in all && BadId(all, id);
    } else if id in t.keys && t.keys[id].fingerprint != e {
      assert t.keys[id].fingerprint in all && e in all && BadId(all, id);
    } else {
      assert id in ConflictedIds(t.conflicts) && Justified(seen, id);
      if BadId(seen, id) {
        BadIdGrows(seen, batch, id);
      } else {
        KnownCopyDecides(t, seen, batch, e);
      }
    }
  }

  /** Exactly which delivered ids are mistaken for conflicting ones: those with the reserved prefix that a withdrawn trip
      has put into the conflict ledger. */
  lemma {:induction false} MistakenIdsExactly(t: Tables, seen: set<Event>, batch: set<Event>, e: Event)
    requires Mirrors(t, seen) && e in batch && !Justified(seen + batch, e.id)
    ensures e.id in ConflictIds(t, batch) <==> PRIOR <= e.id && e.id in ConflictedIds(t.conflicts)
  {
    if e.id in ConflictIds(t, batch) {
      if !(PRIOR <= e.id) {
        ConflictIdIsJustified(t, seen, batch, e.id);
      } else {
        OnlyRecorded(t, seen, batch, e);
      }
    }
  }

  lemma OnlyRecorded(t: Tables, seen: set<Event>, batch: set<Event>, e: Event)
    requires KeysMirror(t, seen) && e in batch && !BadId(seen + batch, e.id) && e.id in ConflictIds(t, batch)
    ensures e.id in ConflictedIds(t.conflicts)
  {
    var all := seen + batch;
    forall a, b | a in batch && b in batch && a.id == e.id && b.id == e.id ensures a == b {
      assert a in all && b in all;
    }
    if e.id in t.keys {
      assert t.keys[e.id].fingerprint in all && e in all;
    }
  }

  /** A further copy of an id whose seen copies all sit on bad trips is either a new identity clash or on a bad trip. */
  lemma {:induction false} KnownCopyDecides(t: Tables, seen: set<Event>, batch: set<Event>, e: Event)
    requires e in batch && (exists f :: f in seen && f.id == e.id)
    requires forall f :: f in seen && f.id == e.id ==> HasBadTrip(seen, f)
    ensures Justified(seen + batch, e.id)
  {
    var all := seen + batch;
    var f :| f in seen && f.id == e.id;
    BadTripGrows(seen, batch, f.trip.value);
    if !BadId(all, e.id) {
      assert f in all;
      forall g | g in all && g.id == e.id ensures HasBadTrip(all, g) {
        assert g == f;
      }
    }
  }

  /* ---- bad trips: complete and sound ---- */

  lemma {:induction false} TaintIsCaught(t: Tables, seen: set<Event>, batch: set<Event>, e: Event)
    requires Mirrors(t, seen)
    requires e in seen + batch && e.trip.Some? && BadId(seen + batch, e.id)
    ensures e.trip.value in BadTrips(t, batch) || BadTrip(seen, e.trip.value)
  {
    var ids := ConflictIds(t, batch);
    if e in batch {
      BadIdIsCaught(t, seen, batch, e);
    } else {
      OldBadIdIsRecorded(t, seen, batch, e);
      if !BadId(seen, e.id) {
        if e.id in t.keys {
          assert t.keys[e.id].fingerprint == e;
          assert e.id in ids && t.keys[e.id].trip == e.trip;
        } else {
          assert Justified(seen, e.id);
        }
      }
    }
  }

  lemma {:induction false} ContradictionIsCaught(t: Tables, seen: set<Event>, batch: set<Event>, a: Event, b: Event)
    requires Mirrors(t, seen)
    requires a in seen + batch && b in batch && a.completed && b.completed
    requires a.trip.Some? && a.trip == b.trip && SignatureOf(a) != SignatureOf(b)
    ensures a.trip.value in BadTrips(t, batch) || BadTrip(seen, a.trip.value)
  {
    if a !in batch && !BadTrip(seen, a.trip.value) {
      assert !Tainted(seen, a.trip.value);
      assert Live(seen, a);
      assert t.trips[a.trip.value] == SignatureOf(a);
    }
  }

  /** No bad trip is missed. */
  lemma {:induction false} BadTripIsCaught(t: Tables, seen: set<Event>, batch: set<Event>, trip: string)
    requires Mirrors(t, seen)
    requires BadTrip(seen + batch, trip)
    ensures trip in BadTrips(t, batch) || BadTrip(seen, trip)
  {
    var all := seen + batch;
    if Contradicted(all, trip) {
      var a, b :| a in all && b in all && a.completed && b.completed &&
        a.trip == Some(trip) && b.trip == Some(trip) && SignatureOf(a) != SignatureOf(b);
      if b in batch {
        ContradictionIsCaught(t, seen, batch, a, b);
      } else if a in batch {
        ContradictionIsCaught(t, seen, batch, b, a);
      } else {
        assert Contradicted(seen, trip);
      }
    } else {
      var e :| e in all && e.trip == Some(trip) && BadId(all, e.id);
      TaintIsCaught(t, seen, batch, e);
    }
  }

  lemma {:induction false} ConflictTaints(t: Tables, seen: set<Event>, batch: set<Event>, e: Event)
    requires Mirrors(t, seen) && AllValid(batch)
    requires e in seen + batch && e.id in ConflictIds(t, batch) && e.trip.Some?
    ensures BadTrip(seen + batch, e.trip.value)
  {
    ConflictIdIsJustified(t, seen, batch, e.id);
    if BadId(seen + batch, e.id) {
      assert Tainted(seen + batch, e.trip.value);
    }
  }

  /** The five ways a trip gets into `stage_bad_trips`. */
  datatype Cause = StagedPair(a: Event, b: Event) | Stored(e: Event) | Staged(e: Event) | Known(k: string) | Blocked

  ghost predicate Causes(t: Tables, batch: set<Event>, ids: set<string>, trip: string, c: Cause) {
    match c
    case StagedPair(a, b) => a in batch && b in batch && a.completed && b.completed && a.trip == b.trip == Some(trip)
                             && SignatureOf(a) != SignatureOf(b)
    case Stored(e) => e in batch && e.completed && e.trip == Some(trip) && trip in t.trips && SignatureOf(e) != t.trips[trip]
    case Staged(e) => e in batch && e.id in ids && e.trip == Some(trip)
    case Known(k) => k in t.keys && k in ids && t.keys[k].trip == Some(trip)
    case Blocked => trip in BlockedTrips(t.conflicts) && exists e :: e in batch && e.trip == Some(trip)
  }

  lemma {:induction false} BadTripHasCause(t: Tables, batch: set<Event>, ids: set<string>, trip: string) returns (c: Cause)
    requires trip in StageBadTrips(t, batch, ids)
    ensures Causes(t, batch, ids, trip, c)
  {
    if trip in BlockedTrips(t.conflicts) && exists e :: e in batch && e.trip == Some(trip) {
      c := Blocked;
    } else if e :| e in batch && e.id in ids && e.trip == Some(trip) {
      c := Staged(e);
    } else if k :| k in t.keys && k in ids && t.keys[k].trip == Some(trip) {
      c := Known(k);
    } else if e :| e in batch && e.completed && e.trip == Some(trip) && trip in t.trips && SignatureOf(e) != t.trips[trip] {
      c := Stored(e);
    } else {
      var a, b :| a in batch && b in batch && a.completed && b.completed && a.trip.Some? && a.trip == b.trip
                  && SignatureOf(a) != SignatureOf(b) && trip == a.trip.value;
      c := StagedPair(a, b);
    }
  }

  /** No trip is blocked without cause. */
  lemma {:induction false} BlockedTripIsBad(t: Tables, seen: set<Event>, batch: set<Event>, trip: string)
    requires Mirrors(t, seen) && AllValid(batch)
    requires trip in BadTrips(t, batch)
    ensures BadTrip(seen + batch, trip)
  {
    var all := seen + batch;
    var c := BadTripHasCause(t, batch, ConflictIds(t, batch), trip);
    match c {
      case StagedPair(a, b) =>
        assert a in all && b in all && Contradicted(all, trip);
      case Stored(e) =>
        var f :| Live(seen, f) && f.completed && f.trip == Some(trip);
        assert e in all && f in all && Contradicted(all, trip);
      case Staged(e) =>
        ConflictTaints(t, seen, batch, e);
      case Known(k) =>
        ConflictTaints(t, seen, batch, t.keys[k].fingerprint);
      case Blocked =>
        BadTripGrows(seen, batch, trip);
    }
  }

  /* ---- what any correct choice of blocked ids and trips must satisfy ---- */

  ghost predicate Blocks(t: Tables, seen: set<Event>, batch: set<Event>, ids: set<string>, trips: set<string>) {
    var all := seen + batch;
    && (forall e :: e in batch && BadId(all, e.id) ==> e.id in ids)
    && (forall e :: e in seen && BadId(all, e.id) ==> e.id in ids || BadId(seen, e.id))
    && (forall id :: id in ids && !(PRIOR <= id) ==> Justified(all, id))
    && (forall trip :: BadTrip(all, trip) ==> trip in trips || BadTrip(seen, trip))
    && (forall trip :: trip in trips ==> BadTrip(all, trip))
    && (forall e :: e in batch && HasBadTrip(seen, e) ==> e.trip.value in trips)
    && (forall e :: e in batch && e.id in t.keys && e.id !in ids ==> t.keys[e.id].fingerprint == e)
    && (forall e :: e in batch && e.id in ConflictedIds(t.conflicts) ==> e.id in ids)
  }

  lemma {:induction false} StageBlocks(t: Tables, seen: set<Event>, batch: set<Event>)
    requires Mirrors(t, seen) && AllValid(batch)
    ensures Blocks(t, seen, batch, ConflictIds(t, batch), BadTrips(t, batch))
  {
    var all := seen + batch;
    forall e | e in batch && BadId(all, e.id) { BadIdIsCaught(t, seen, batch, e); }
    forall e | e in seen && BadId(all, e.id) { OldBadIdIsRecorded(t, seen, batch, e); }
    forall id | id in ConflictIds(t, batch) && !(PRIOR <= id) { ConflictIdIsJustified(t, seen, batch, id); }
    forall trip | BadTrip(all, trip) { BadTripIsCaught(t, seen, batch, trip); }
    forall trip | trip in BadTrips(t, batch) { BlockedTripIsBad(t, seen, batch, trip); }
  }

  /** A seen live event stays live exactly when neither its id nor its trip is blocked now. */
  lemma {:induction false} SurvivesExactlyIfUnblocked(
    t: Tables, seen: set<Event>, batch: set<Event>, ids: set<string>, trips: set<string>, e: Event)
    requires Mirrors(t, seen) && Blocks(t, seen, batch, ids, trips) && AllValid(seen)
    requires Live(seen, e)
    ensures Live(seen + batch, e) <==> !Rejects(ids, trips, e)
  {
    var all := seen + batch;
    assert e in all;
    if e.id in ids {
      assert Justified(all, e.id);
    }
  }

  /** A delivered event is live exactly when it is not rejected. */
  lemma {:induction false} DeliveredIsLiveExactlyIfUnrejected(
    t: Tables, seen: set<Event>, batch: set<Event>, ids: set<string>, trips: set<string>, e: Event)
    requires Mirrors(t, seen) && Blocks(t, seen, batch, ids, trips) && AllValid(batch)
    requires e in batch
    ensures Live(seen + batch, e) <==> !Rejects(ids, trips, e)
  {
    var all := seen + batch;
    assert e in all;
    if e.id in ids {
      assert Justified(all, e.id);
    }
  }

  lemma {:induction false} LiveAfter(
    t: Tables, seen: set<Event>, batch: set<Event>, ids: set<string>, trips: set<string>, e: Event)
    requires Mirrors(t, seen) && Blocks(t, seen, batch, ids, trips) && AllValid(seen) && AllValid(batch)
    ensures Live(seen + batch, e) <==>
            (Live(seen, e) && !Rejects(ids, trips, e)) || e in Accepted(t.keys, batch, ids, trips)
  {
    if Live(seen, e) {
      SurvivesExactlyIfUnblocked(t, seen, batch, ids, trips, e);
    }
    if e in batch {
      DeliveredIsLiveExactlyIfUnrejected(t, seen, batch, ids, trips, e);
      if Live(seen + batch, e) && e.id in t.keys {
        assert t.keys[e.id].fingerprint == e;
        LiveShrinks(seen, batch, e);
      }
    }
    if Live(seen + batch, e) && e in seen {
      LiveShrinks(seen, batch, e);
    }
  }

  lemma {:induction false} KeysStayMirrored(
    t: Tables, seen: set<Event>, batch: set<Event>, ids: set<string>, trips: set<string>, conflicts: Conflicts, batchId: int)
    requires OnePerId(Accepted(t.keys, batch, ids, trips)) && CompletionsAgree(Accepted(t.keys, batch, ids, trips))
    requires KeysMirror(t, seen)
    requires ConflictedIds(conflicts) == ConflictedIds(t.conflicts) + RejectedIds(t, batch, ids, trips)
    ensures KeysMirror(After(t, batch, ids, trips, conflicts, batchId), seen + batch)
  {
    var after := After(t, batch, ids, trips, conflicts, batchId);
    var accepted := Accepted(t.keys, batch, ids, trips);
    forall e | e in batch ensures e.id in after.keys || e.id in ConflictedIds(conflicts) {
      if !Rejects(ids, trips, e) && e.id !in t.keys {
        assert e in accepted;
        assert e.id in NewKeys(accepted, batchId);
      }
    }
  }

  lemma {:induction false} ConflictsStayMirrored(
    t: Tables, seen: set<Event>, batch: set<Event>, ids: set<string>, trips: set<string>, after: Tables)
    requires Mirrors(t, seen) && Blocks(t, seen, batch, ids, trips) && AllValid(seen) && AllValid(batch)
    requires ConflictedIds(after.conflicts) == ConflictedIds(t.conflicts) + RejectedIds(t, batch, ids, trips)
    requires BlockedTrips(after.conflicts) == BlockedTrips(t.conflicts) + trips
    ensures ConflictsMirror(after, seen + batch)
  {
    var all := seen + batch;
    forall id | id in ConflictedIds(after.conflicts) && !(PRIOR <= id) ensures Justified(all, id) {
      if id in RejectedIds(t, batch, ids, trips) {
        assert forall trip :: PRIOR <= PriorId(trip);
        var e :| e in batch && Rejects(ids, trips, e) && e.id == id;
        RejectedIsJustified(t, seen, batch, ids, trips, e);
      } else {
        OldJustificationHolds(t, seen, batch, ids, trips, id);
      }
    }
    forall e | e in all && BadId(all, e.id) ensures e.id in ConflictedIds(after.conflicts) {
      if e in batch {
        assert Rejects(ids, trips, e);
      } else if !BadId(seen, e.id) {
        var f :| f in all && f.id == e.id && f != e;
        assert f in batch && Rejects(ids, trips, f);
      }
    }
    forall trip | BadTrip(seen, trip) { BadTripGrows(seen, batch, trip); }
  }

  lemma {:induction false} RejectedIsJustified(
    t: Tables, seen: set<Event>, batch: set<Event>, ids: set<string>, trips: set<string>, e: Event)
    requires Blocks(t, seen, batch, ids, trips) && AllValid(batch)
    requires e in batch && Rejects(ids, trips, e)
    ensures Justified(seen + batch, e.id)
  {
    var all := seen + batch;
    assert e in all;
    if e.id !in ids && !BadId(all, e.id) {
      forall f | f in all && f.id == e.id ensures HasBadTrip(all, f) {
        assert f == e;
      }
    }
  }

  lemma {:induction false} OldJustificationHolds(
    t: Tables, seen: set<Event>, batch: set<Event>, ids: set<string>, trips: set<string>, id: string)
    requires Mirrors(t, seen) && Blocks(t, seen, batch, ids, trips)
    requires id in ConflictedIds(t.conflicts) && !(PRIOR <= id)
    ensures Justified(seen + batch, id)
  {
    assert Justified(seen, id);
    if BadId(seen, id) {
      BadIdGrows(seen, batch, id);
    } else if e :| e in batch && e.id == id {
      KnownCopyDecides(t, seen, batch, e);
    } else {
      var e :| e in seen && e.id == id;
      assert e in seen + batch;
      forall f | f in seen + batch && f.id == id ensures HasBadTrip(seen + batch, f) {
        BadTripGrows(seen, batch, f.trip.value);
      }
    }
  }

  /** `LiveAfter` for all events at once. */
  ghost predicate LiveSplits(
    seen: set<Event>, all: set<Event>, ids: set<string>, trips: set<string>, accepted: set<Event>)
  {
    forall e :: Live(all, e) <==> ((Live(seen, e) && !Rejects(ids, trips, e)) || e in accepted)
  }

  lemma {:induction false} ContributionsStayMirrored(
    t: Tables, seen: set<Event>, all: set<Event>, ids: set<string>, trips: set<string>, accepted: set<Event>, after: Tables)
    requires ContributionsMirror(t, seen) && LiveSplits(seen, all, ids, trips, accepted)
    requires OnePerId(accepted) && forall e :: e in accepted ==> e.id !in t.keys && e.id in after.keys
    requires t.keys.Keys <= after.keys.Keys
    requires after.contributions == NewContributions(accepted) + WithoutEvents(t.contributions, ids, trips)
    ensures ContributionsMirror(after, all)
  {
    var kept, added := WithoutEvents(t.contributions, ids, trips), NewContributions(accepted);
    forall e | e in accepted ensures e.id in added && added[e.id] == ContributionOf(e) && e.id !in kept {}
    forall e | Live(all, e) ensures e.id in after.contributions && after.contributions[e.id] == ContributionOf(e) {
      if e !in accepted {
        assert e.id in t.contributions && t.contributions[e.id] == ContributionOf(e);
        assert e.id in kept;
      }
    }
    forall k | k in after.contributions
      ensures Live(all, after.contributions[k].fingerprint) && after.contributions[k].fingerprint.id == k && k in after.keys
    {
      if k in kept {
        var e := t.contributions[k].fingerprint;
        assert Live(seen, e) && t.contributions[k] == ContributionOf(e);
      } else {
        var e :| e in accepted && e.id == k;
        assert added[k] == ContributionOf(e);
      }
    }
  }

  lemma {:induction false} TripsStayMirrored(
    t: Tables, seen: set<Event>, all: set<Event>, trips: set<string>, accepted: set<Event>, after: Tables)
    requires TripsMirror(t, seen) && AllValid(all) && CompletionsAgree(accepted)
    requires forall e :: e in accepted ==> Live(all, e)
    requires forall e :: Live(all, e) ==> !TripIn(e.trip, trips) && (Live(seen, e) || e in accepted)
    requires forall f :: Live(seen, f) && TripIn(f.trip, t.trips.Keys) && f.trip.value !in trips ==> Live(all, f)
    requires after.trips == NewTrips(accepted) + WithoutTrips(t.trips, trips)
    ensures TripsMirror(after, all)
  {
    hide HasBadTrip, BadTrip, BadId;
    var kept, added := WithoutTrips(t.trips, trips), NewTrips(accepted);
    forall e | Live(all, e) && e.completed
      ensures TripIn(e.trip, after.trips.Keys) && after.trips[e.trip.value] == SignatureOf(e)
    {
      assert Valid(e);
      if e.trip.value in kept {
        var f :| Live(seen, f) && f.completed && f.trip == e.trip;
        LiveCompletionsAgree(all, e, f);
      } else {
        assert e in accepted && e.trip.value in added;
      }
    }
    forall trip | trip in after.trips ensures exists e :: Live(all, e) && e.completed && e.trip == Some(trip) {
      if trip in kept {
        var f :| Live(seen, f) && f.completed && f.trip == Some(trip);
        assert Live(all, f);
      } else {
        var e :| e in accepted && e.completed && e.trip == Some(trip);
      }
    }
  }

  lemma {:induction false} OldCompletionSurvives(
    t: Tables, seen: set<Event>, batch: set<Event>, ids: set<string>, trips: set<string>, f: Event)
    requires Mirrors(t, seen) && Blocks(t, seen, batch, ids, trips) && AllValid(seen)
    requires forall k :: k in t.keys && k in ids && t.keys[k].trip.Some? ==> t.keys[k].trip.value in trips
    requires Live(seen, f) && TripIn(f.trip, t.trips.Keys) && f.trip.value !in trips
    ensures Live(seen + batch, f)
  {
    assert t.contributions[f.id] == ContributionOf(f);
    assert f.id in t.keys && t.keys[f.id].fingerprint in seen && t.keys[f.id].fingerprint.id == f.id;
    SurvivesExactlyIfUnblocked(t, seen, batch, ids, trips, f);
  }

  lemma NewKeysAreAccepted(accepted: set<Event>, batchId: int)
    requires OnePerId(accepted)
    ensures forall e :: e in accepted ==> e.id in NewKeys(accepted, batchId)
  {}

  lemma {:induction false} BlockingSplitsLive(
    t: Tables, seen: set<Event>, batch: set<Event>, ids: set<string>, trips: set<string>)
    requires Mirrors(t, seen) && Blocks(t, seen, batch, ids, trips) && AllValid(seen) && AllValid(batch)
    ensures LiveSplits(seen, seen + batch, ids, trips, Accepted(t.keys, batch, ids, trips))
  {
    forall e ensures Live(seen + batch, e) <==>
                     ((Live(seen, e) && !Rejects(ids, trips, e)) || e in Accepted(t.keys, batch, ids, trips))
    {
      LiveAfter(t, seen, batch, ids, trips, e);
    }
  }

  lemma {:induction false} OldCompletionsSurvive(
    t: Tables, seen: set<Event>, batch: set<Event>, ids: set<string>, trips: set<string>)
    requires Mirrors(t, seen) && Blocks(t, seen, batch, ids, trips) && AllValid(seen)
    requires forall k :: k in t.keys && k in ids && t.keys[k].trip.Some? ==> t.keys[k].trip.value in trips
    ensures forall f :: Live(seen, f) && TripIn(f.trip, t.trips.Keys) && f.trip.value !in trips ==> Live(seen + batch, f)
  {
    forall f | Live(seen, f) && TripIn(f.trip, t.trips.Keys) && f.trip.value !in trips ensures Live(seen + batch, f) {
      OldCompletionSurvives(t, seen, batch, ids, trips, f);
    }
  }

  /** The table updates are right for any choice of blocked ids and trips that blocks correctly. */
  lemma {:induction false} AfterMirrors(
    t: Tables, seen: set<Event>, batch: set<Event>, ids: set<string>, trips: set<string>, conflicts: Conflicts, batchId: int)
    requires Mirrors(t, seen) && Blocks(t, seen, batch, ids, trips) && AllValid(seen) && AllValid(batch)
    requires OnePerId(Accepted(t.keys, batch, ids, trips)) && CompletionsAgree(Accepted(t.keys, batch, ids, trips))
    requires forall k :: k in t.keys && k in ids && t.keys[k].trip.Some? ==> t.keys[k].trip.value in trips
    requires ConflictedIds(conflicts) == ConflictedIds(t.conflicts) + RejectedIds(t, batch, ids, trips)
    requires BlockedTrips(conflicts) == BlockedTrips(t.conflicts) + trips
    ensures Mirrors(After(t, batch, ids, trips, conflicts, batchId), seen + batch)
  {
    var all, accepted, after := seen + batch, Accepted(t.keys, batch, ids, trips), After(t, batch, ids, trips, conflicts, batchId);
    KeysStayMirrored(t, seen, batch, ids, trips, conflicts, batchId);
    ConflictsStayMirrored(t, seen, batch, ids, trips, after);
    BlockingSplitsLive(t, seen, batch, ids, trips);
    OldCompletionsSurvive(t, seen, batch, ids, trips);
    LiveViewsStayMirrored(t, seen, all, ids, trips, accepted, after, batchId);
  }

  lemma {:induction false} LiveViewsStayMirrored(
    t: Tables, seen: set<Event>, all: set<Event>, ids: set<string>, trips: set<string>,
    accepted: set<Event>, after: Tables, batchId: int)
    requires ContributionsMirror(t, seen) && TripsMirror(t, seen) && LiveSplits(seen, all, ids, trips, accepted)
    requires AllValid(all) && OnePerId(accepted) && CompletionsAgree(accepted)
    requires forall e :: e in accepted ==> e.id !in t.keys && !TripIn(e.trip, trips)
    requires forall f :: Live(seen, f) && TripIn(f.trip, t.trips.Keys) && f.trip.value !in trips ==> Live(all, f)
    requires after.keys == NewKeys(accepted, batchId) + t.keys
    requires after.trips == NewTrips(accepted) + WithoutTrips(t.trips, trips)
    requires after.contributions == NewContributions(accepted) + WithoutEvents(t.contributions, ids, trips)
    ensures ContributionsMirror(after, all) && TripsMirror(after, all)
  {
    NewKeysAreAccepted(accepted, batchId);
    ContributionsStayMirrored(t, seen, all, ids, trips, accepted, after);
    TripsStayMirrored(t, seen, all, trips, accepted, after);
  }

  /** A staged merge adds exactly its rejected ids and bad trips to the conflict ledger, whatever its batch id. */
  lemma {:induction false} MergeConflictsAgree(t: Tables, rows: Topic, batchId: int, topic: Topic)
    requires ReasonsDetermined(t.keys, t.conflicts, topic) && FromTopic(rows, topic)
    ensures var ids, trips := ConflictIds(t, rows.Values), BadTrips(t, rows.Values);
            var after := Merge(t, rows, batchId).conflicts;
            && ConflictedIds(after) == ConflictedIds(t.conflicts) + RejectedIds(t, rows.Values, ids, trips)
            && BlockedTrips(after) == BlockedTrips(t.conflicts) + trips
  {
    var ids, trips := ConflictIds(t, rows.Values), BadTrips(t, rows.Values);
    var after := Merge(t, rows, batchId);
    StageIsCarried(t, rows.Values);
    RecordConflictsRecords(t, rows, batchId, ids, trips);
    ConflictedIdsAfterMerge(t, rows, batchId, ids, trips, after.conflicts);
    ReasonsStayDetermined(t, rows, batchId, ids, trips, t.keys, after.conflicts, topic);
    NoBlockedTripIsLost(t, rows, batchId, ids, trips, after.conflicts, topic);
  }

  /** One staged merge of any rows under any batch id keeps the ledgers equal to the reference. */
  lemma {:induction false} MergeKeepsMirror(t: Tables, seen: set<Event>, rows: Topic, batchId: int, topic: Topic)
    requires Mirrors(t, seen) && AllValid(seen) && AllValid(rows.Values)
    requires ReasonsDetermined(t.keys, t.conflicts, topic) && FromTopic(rows, topic)
    ensures Mirrors(Merge(t, rows, batchId), seen + rows.Values)
  {
    var batch := rows.Values;
    var ids, trips := ConflictIds(t, batch), BadTrips(t, batch);
    var after := Merge(t, rows, batchId);
    AcceptedIsCoherent(t, batch);
    StageIsCarried(t, batch);
    StageBlocks(t, seen, batch);
    MergeConflictsAgree(t, rows, batchId, topic);
    AfterMirrors(t, seen, batch, ids, trips, after.conflicts, batchId);
  }

  lemma {:induction false} MergeKeepsReasons(t: Tables, rows: Topic, batchId: int, topic: Topic)
    requires ReasonsDetermined(t.keys, t.conflicts, topic) && FromTopic(rows, topic)
    ensures ReasonsDetermined(Merge(t, rows, batchId).keys, Merge(t, rows, batchId).conflicts, topic)
  {
    var ids, trips := ConflictIds(t, rows.Values), BadTrips(t, rows.Values);
    var after := Merge(t, rows, batchId);
    RecordConflictsRecords(t, rows, batchId, ids, trips);
    ReasonsStayDetermined(t, rows, batchId, ids, trips, after.keys, after.conflicts, topic);
  }
}
