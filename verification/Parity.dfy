/** The two batch formulations against each other: exactly when they agree. */
module Parity {
  import Text
  import Sums
  import opened Events
  import opened Reference
  import opened Expenses
  import opened Reconcile
  import Aggregate

  /** A day without identity clashes, confined to its date. Completions of one trip may still disagree. */
  ghost predicate PlainDay(events: set<Event>, day: int) {
    && (forall e :: e in events ==> DayOf(e.ts) == day && !BadId(events, e.id))
    && (forall e :: e in events && e.completed ==> e.trip.Some?)
  }

  /** In addition only known vehicles, all of them fully observed, with at most one cost row each. */
  ghost predicate CoveredDay(events: set<Event>, costs: seq<Cost>, day: int, known: set<string>, telemetry: map<string, bool>) {
    && PlainDay(events, day)
    && (forall e :: e in events ==> e.vehicle in known)
    && DistinctVehicles(costs) && CostMap(costs).Keys <= known
    && (forall v :: v in known ==> v in telemetry && telemetry[v])
  }

  ghost predicate Undisputed(events: set<Event>) {
    forall t :: !Contradicted(events, t)
  }

  lemma NoIdIsExcluded(events: set<Event>, day: int)
    requires PlainDay(events, day)
    ensures Aggregate.BadIds(events, {}) == {} && Aggregate.Clean(events, {}) == events
    ensures (set e | e in events && e.id !in {} && !BadId(events, e.id)) == events
  {
    forall id ensures id !in Aggregate.BadIds(events, {}) {
      if a, b :| a in events && b in events && a.id == id && b.id == id && a != b {
        assert BadId(events, a.id);
      }
    }
  }

  lemma TripsOnMembers(events: set<Event>, day: int, trip: string)
    requires PlainDay(events, day) && !Conflicting(events, day)
    ensures trip in TripsOn(events, day) <==> exists e :: e in events && e.completed && e.trip == Some(trip)
  {
    if e :| e in events && e.completed && e.trip == Some(trip) {
      assert CompletedOn(e, day);
    }
  }

  lemma GoodTripIsUndisputed(events: set<Event>, day: int, trip: string)
    requires PlainDay(events, day) && !Conflicting(events, day)
    ensures trip in Aggregate.GoodTrips(events, {}, {}) <==> trip in TripsOn(events, day) && !Contradicted(events, trip)
  {
    NoIdIsExcluded(events, day);
    Aggregate.GoodTripsAreUndisputed(events, {}, {}, trip);
    TripsOnMembers(events, day, trip);
  }

  /** On a day that `reconcile` accepts, both formulations count the same trips if and only if no trip has completions that
      disagree, in the zone included: the zone is all that is left to disagree on. */
  lemma {:induction false} SameTripsExactly(events: set<Event>, day: int)
    requires PlainDay(events, day) && !Conflicting(events, day)
    ensures Aggregate.GoodTrips(events, {}, {}).Keys == TripsOn(events, day).Keys <==> Undisputed(events)
  {
    forall t ensures t in Aggregate.GoodTrips(events, {}, {}) <==> t in TripsOn(events, day) && !Contradicted(events, t) {
      GoodTripIsUndisputed(events, day, t);
    }
    forall t | Contradicted(events, t) ensures t in TripsOn(events, day) {
      TripsOnMembers(events, day, t);
    }
    hide Contradicted, Aggregate.GoodTrips, TripsOn, PlainDay, Conflicting;
  }

  /** The facts counted for a trip are the same, zone aside. */
  lemma {:induction false} SameFacts(events: set<Event>, day: int, t: string)
    requires PlainDay(events, day) && !Conflicting(events, day) && t in Aggregate.GoodTrips(events, {}, {})
    ensures t in TripsOn(events, day)
    ensures var s := Aggregate.GoodTrips(events, {}, {})[t]; TripsOn(events, day)[t] == Completion(s.vehicle, s.fare, s.ts)
  {
    NoIdIsExcluded(events, day);
    Aggregate.RemainingTripsAgree(events, {});
    var bad := Aggregate.BadTripsOf(events, {});
    hide Aggregate.BadIds, Aggregate.BadTripsOf, Aggregate.Clean, PlainDay;
    assert Aggregate.GoodTrips(events, {}, {}) == Aggregate.CountedTrips(events, bad);
    CountedFacts(events, bad, day, t);
  }

  lemma CountedFacts(events: set<Event>, bad: set<string>, day: int, t: string)
    requires Aggregate.TripsAgree(events, bad) && !Conflicting(events, day) && forall e :: e in events ==> DayOf(e.ts) == day
    requires t in Aggregate.CountedTrips(events, bad)
    ensures t in TripsOn(events, day)
    ensures var s := Aggregate.CountedTrips(events, bad)[t]; TripsOn(events, day)[t] == Completion(s.vehicle, s.fare, s.ts)
  {
    var e :| e in events && Aggregate.Counts(e, bad) && e.trip.value == t;
    assert CompletedOn(e, day);
    assert Aggregate.CountedTrips(events, bad)[t] == SignatureOf(e) && TripsOn(events, day)[t] == CompletionOf(e);
  }

  /** Same trips per vehicle, same revenue. */
  lemma {:induction false} SameVehicleTotal(good: Aggregate.Trips, trips: Completions, vehicle: string)
    requires good.Keys == trips.Keys
    requires forall t :: t in trips ==> trips[t] == Completion(good[t].vehicle, good[t].fare, good[t].ts)
    ensures Aggregate.Total(good, Aggregate.Vehicle, vehicle) == (|TripsOfVehicle(trips, vehicle)|, RevenueOf(trips, vehicle))
  {
    hide Sums.Sum;
    assert Aggregate.TripsIn(good, Aggregate.Vehicle, vehicle) == TripsOfVehicle(trips, vehicle);
    Sums.SumIsLocal(Aggregate.FareOf(good), Fares(trips), TripsOfVehicle(trips, vehicle));
  }

  /** A joined row of an undisputed, covered vehicle is the reference's row, with costs or without. */
  lemma {:induction false} JoinedRowIsReferenceRow(
    good: Aggregate.Trips, trips: Completions, costs: map<string, Cost>, vehicle: string, telemetry: map<string, bool>)
    requires good.Keys == trips.Keys && vehicle in telemetry && telemetry[vehicle]
    requires forall t :: t in trips ==> trips[t] == Completion(good[t].vehicle, good[t].fare, good[t].ts)
    ensures Aggregate.RowOf(vehicle, good, costs, {}, telemetry) == RowFor(trips, costs, vehicle)
  {
    hide Aggregate.Total, TripsOfVehicle, RevenueOf;
    SameVehicleTotal(good, trips, vehicle);
  }

  lemma UndisputedExcludesNothing(events: set<Event>, day: int)
    requires PlainDay(events, day) && Undisputed(events)
    ensures Aggregate.ConflictedVehicles(events, {}, {}) == {}
  {
    NoIdIsExcluded(events, day);
    forall trip ensures trip !in Aggregate.BadTripsOf(events, {}) {
      assert !Contradicted(events, trip);
    }
    hide Aggregate.BadTripsOf, Aggregate.BadIds, Aggregate.Clean;
  }

  lemma DisputeMarksVehicle(events: set<Event>, day: int, t: string) returns (e: Event)
    requires PlainDay(events, day) && Contradicted(events, t)
    ensures e in events && e.vehicle in Aggregate.ConflictedVehicles(events, {}, {})
  {
    NoIdIsExcluded(events, day);
    var a, b :| a in events && b in events && a.completed && b.completed && a.trip == Some(t) && b.trip == Some(t)
                && SignatureOf(a) != SignatureOf(b);
    assert t in Aggregate.BadTripsOf(events, {});
    hide Aggregate.BadTripsOf, Aggregate.BadIds, Aggregate.Clean;
    e := a;
  }

  ghost predicate SameRows(rows: seq<ReportRow>, vehicles: seq<string>, trips: Completions, costs: map<string, Cost>) {
    |rows| == |vehicles| && forall i :: 0 <= i < |rows| ==> rows[i] == RowFor(trips, costs, vehicles[i])
  }

  /** On a covered day that `reconcile` accepts, the aggregation gives every known vehicle, with or without costs, the
      reference's row if and only if no trip is disputed. */
  lemma {:induction false} AggregateMatchesReconcile(
    raw: seq<Aggregate.ArchiveRow>, costs: seq<Cost>, day: int, known: set<string>, telemetry: map<string, bool>)
    requires CoveredDay(Aggregate.BusinessEvents(raw), costs, day, known, telemetry)
    requires !Conflicting(Aggregate.BusinessEvents(raw), day)
    ensures var events, outcome := Aggregate.BusinessEvents(raw), Aggregate.AggregateDay(raw, costs, day, known, {}, {}, telemetry);
            && outcome.Report?
            && (SameRows(outcome.rows, Text.Sort(known), TripsOn(events, day), CostMap(costs)) <==> Undisputed(events))
  {
    hide *;
    var events := Aggregate.BusinessEvents(raw);
    CoveredDayIsReported(raw, costs, day, known, telemetry);
    if Undisputed(events) {
      UndisputedRowsAgree(events, costs, day, known, telemetry);
    } else {
      DisputedRowDiffers(events, costs, day, known, telemetry);
    }
  }

  ghost function RowsOf(events: set<Event>, costs: seq<Cost>, known: set<string>, telemetry: map<string, bool>): seq<ReportRow> {
    Aggregate.JoinAll(Text.Sort(known), Aggregate.GoodTrips(events, {}, {}), costs, Aggregate.ConflictedVehicles(events, {}, {}), telemetry)
  }

  lemma CoveredDayIsReported(
    raw: seq<Aggregate.ArchiveRow>, costs: seq<Cost>, day: int, known: set<string>, telemetry: map<string, bool>)
    requires CoveredDay(Aggregate.BusinessEvents(raw), costs, day, known, telemetry)
    ensures var outcome := Aggregate.AggregateDay(raw, costs, day, known, {}, {}, telemetry);
            outcome.Report? && outcome.rows == RowsOf(Aggregate.BusinessEvents(raw), costs, known, telemetry)
  {
    hide Aggregate.GoodTrips, Aggregate.ConflictedVehicles, Text.Sort, Aggregate.JoinAll, Aggregate.BusinessEvents, BadId;
  }

  lemma {:induction false} UndisputedRowsAgree(events: set<Event>, costs: seq<Cost>, day: int, known: set<string>, telemetry: map<string, bool>)
    requires CoveredDay(events, costs, day, known, telemetry) && !Conflicting(events, day) && Undisputed(events)
    ensures SameRows(RowsOf(events, costs, known, telemetry), Text.Sort(known), TripsOn(events, day), CostMap(costs))
  {
    var good, trips, vehicles := Aggregate.GoodTrips(events, {}, {}), TripsOn(events, day), Text.Sort(known);
    var rows := RowsOf(events, costs, known, telemetry);
    UndisputedExcludesNothing(events, day);
    SameTripsExactly(events, day);
    hide *;
    assert DistinctVehicles(costs) && PlainDay(events, day) && rows == Aggregate.JoinAll(vehicles, good, costs, {}, telemetry) by {
      RowsOfMeans(events, costs, day, known, telemetry);
    }
    Aggregate.JoinIsOneRowEach(vehicles, good, costs, {}, telemetry);
    forall t | t in trips ensures trips[t] == Completion(good[t].vehicle, good[t].fare, good[t].ts) {
      SameFacts(events, day, t);
    }
    forall i | 0 <= i < |rows| ensures rows[i] == RowFor(trips, CostMap(costs), vehicles[i]) {
      KnownIsCovered(events, costs, day, known, telemetry, vehicles[i]);
      JoinedRowIsReferenceRow(good, trips, CostMap(costs), vehicles[i], telemetry);
    }
    SameRowsMeans(rows, vehicles, trips, CostMap(costs));
  }

  lemma RowsOfMeans(events: set<Event>, costs: seq<Cost>, day: int, known: set<string>, telemetry: map<string, bool>)
    requires CoveredDay(events, costs, day, known, telemetry)
    ensures DistinctVehicles(costs) && PlainDay(events, day)
    ensures RowsOf(events, costs, known, telemetry)
         == Aggregate.JoinAll(Text.Sort(known), Aggregate.GoodTrips(events, {}, {}), costs, Aggregate.ConflictedVehicles(events, {}, {}), telemetry)
  {
    hide Aggregate.GoodTrips, Aggregate.ConflictedVehicles, Text.Sort, Aggregate.JoinAll, PlainDay, DistinctVehicles;
  }

  lemma {:induction false} DisputedRowDiffers(events: set<Event>, costs: seq<Cost>, day: int, known: set<string>, telemetry: map<string, bool>)
    requires CoveredDay(events, costs, day, known, telemetry) && !Conflicting(events, day) && !Undisputed(events)
    ensures !SameRows(RowsOf(events, costs, known, telemetry), Text.Sort(known), TripsOn(events, day), CostMap(costs))
  {
    var t :| Contradicted(events, t);
    var e := DisputeMarksVehicle(events, day, t);
    var vehicles, conflicted := Text.Sort(known), Aggregate.ConflictedVehicles(events, {}, {});
    assert e.vehicle in vehicles;
    var i :| 0 <= i < |vehicles| && vehicles[i] == e.vehicle;
    hide *;
    RowsOfMeans(events, costs, day, known, telemetry);
    var good := Aggregate.GoodTrips(events, {}, {});
    Aggregate.JoinIsOneRowEach(vehicles, good, costs, conflicted, telemetry);
    ConflictedRowDiffers(vehicles[i], good, TripsOn(events, day), CostMap(costs), conflicted, telemetry);
    RowAt(RowsOf(events, costs, known, telemetry), vehicles, TripsOn(events, day), CostMap(costs), i);
  }

  lemma RowAt(rows: seq<ReportRow>, vehicles: seq<string>, trips: Completions, costs: map<string, Cost>, i: nat)
    requires |rows| == |vehicles| && i < |rows| && rows[i] != RowFor(trips, costs, vehicles[i])
    ensures !SameRows(rows, vehicles, trips, costs)
  {
    hide RowFor;
  }

  lemma KnownIsCovered(events: set<Event>, costs: seq<Cost>, day: int, known: set<string>, telemetry: map<string, bool>, vehicle: string)
    requires CoveredDay(events, costs, day, known, telemetry) && vehicle in Text.Sort(known)
    ensures vehicle in telemetry && telemetry[vehicle]
  {
    hide PlainDay, DistinctVehicles, CostMap;
  }

  lemma SameRowsMeans(rows: seq<ReportRow>, vehicles: seq<string>, trips: Completions, costs: map<string, Cost>)
    requires |rows| == |vehicles| && forall i :: 0 <= i < |rows| ==> rows[i] == RowFor(trips, costs, vehicles[i])
    ensures SameRows(rows, vehicles, trips, costs)
  {
    hide RowFor;
  }

  lemma ConflictedRowDiffers(
    vehicle: string, good: Aggregate.Trips, trips: Completions, costs: map<string, Cost>, conflicted: set<string>, telemetry: map<string, bool>)
    requires vehicle in conflicted
    ensures Aggregate.RowOf(vehicle, good, costs, conflicted, telemetry) != RowFor(trips, costs, vehicle)
  {
    hide Aggregate.Total, TripsOfVehicle, RevenueOf;
  }

  /** The reference's report is then exactly the aggregated rows with a trip or a cost: the aggregation adds a row of zeros
      and missing costs for each other known vehicle and nothing else. */
  lemma {:induction false} ReferenceIsRowsWithActivity(
    rows: seq<ReportRow>, known: set<string>, trips: Completions, costs: map<string, Cost>, row: ReportRow)
    requires SameRows(rows, Text.Sort(known), trips, costs) && VehiclesOf(trips) + costs.Keys <= known
    ensures row in Report(trips, costs) <==> row in rows && (row.trips > 0 || row.fuel.Some?)
  {
    var all, active := Text.Sort(known), Text.Sort(VehiclesOf(trips) + costs.Keys);
    hide Text.Sort, RevenueOf, VehiclesOf;
    if row in Report(trips, costs) {
      var i :| 0 <= i < |active| && row == RowFor(trips, costs, active[i]);
      assert active[i] in active && active[i] in all;
      var j :| 0 <= j < |all| && all[j] == active[i];
      assert rows[j] == row;
      ActiveRow(trips, costs, active[i]);
    }
    if row in rows && (row.trips > 0 || row.fuel.Some?) {
      var j :| 0 <= j < |rows| && rows[j] == row;
      ActiveRow(trips, costs, all[j]);
      assert all[j] in active;
      var i :| 0 <= i < |active| && active[i] == all[j];
      assert Report(trips, costs)[i] == row;
    }
  }

  lemma ActiveRow(trips: Completions, costs: map<string, Cost>, vehicle: string)
    ensures RowFor(trips, costs, vehicle).trips > 0 || RowFor(trips, costs, vehicle).fuel.Some? <==> vehicle in VehiclesOf(trips) + costs.Keys
  {
    hide RevenueOf;
    if vehicle in VehiclesOf(trips) {
      var t :| t in trips && trips[t].vehicle == vehicle;
      assert t in TripsOfVehicle(trips, vehicle);
    } else {
      NoTripsNoRevenue(trips, vehicle);
    }
  }

  /** Two completions of one trip that differ only in the zone: the reference accepts them, the aggregation drops the trip. */
  lemma ZoneDisagreementSplitsThePaths(a: Event, b: Event, day: int)
    requires CompletedOn(a, day) && b == a.(id := b.id, zone := b.zone) && a.id != b.id && a.zone != b.zone
    ensures PlainDay({a, b}, day) && !Conflicting({a, b}, day) && !Undisputed({a, b})
    ensures a.trip.value in TripsOn({a, b}, day) && a.trip.value !in Aggregate.GoodTrips({a, b}, {}, {})
  {
    TwoZones(a, b, day);
    hide *;
    DisputedTripIsDropped({a, b}, day, a);
  }

  lemma DisputedTripIsDropped(events: set<Event>, day: int, a: Event)
    requires PlainDay(events, day) && !Conflicting(events, day)
    requires a in events && a.completed && a.trip.Some? && Contradicted(events, a.trip.value)
    ensures !Undisputed(events)
    ensures a.trip.value in TripsOn(events, day) && a.trip.value !in Aggregate.GoodTrips(events, {}, {})
  {
    hide PlainDay, Conflicting, Contradicted, TripsOn, Aggregate.GoodTrips;
    GoodTripIsUndisputed(events, day, a.trip.value);
    assert a.trip == Some(a.trip.value);
    TripsOnMembers(events, day, a.trip.value);
  }

  lemma TwoZones(a: Event, b: Event, day: int)
    requires CompletedOn(a, day) && b == a.(id := b.id, zone := b.zone) && a.id != b.id && a.zone != b.zone
    ensures PlainDay({a, b}, day) && !Conflicting({a, b}, day) && Contradicted({a, b}, a.trip.value)
    ensures a.completed && a.trip.Some?
  {
    assert SignatureOf(a) != SignatureOf(b);
  }
}
