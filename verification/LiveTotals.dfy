/** The streaming and the daily path against each other: the daily report counts what the completed-trip table holds. */
module LiveTotals {
  import Text
  import Aggregate
  import DayInputs
  import opened Events
  import opened Reference
  import opened Ledgers
  import opened LedgerProof
  import opened ServingRuns
  import opened ConflictDays
  import opened Expenses
  import opened BulkLedgers
  import Reconcile

  function EventsOn(events: set<Event>, day: int): set<Event> {
    set e | e in events && DayOf(e.ts) == day
  }

  /** The rows of `completed_trips` of one day. */
  function CompletedOn(done: Trips, day: int): Trips {
    map t | t in done && DayOf(done[t].ts) == day :: done[t]
  }

  ghost predicate Lists(c: DayInputs.ConflictRow, cs: Conflicts, k: ConflictKey)
    requires k in cs
  {
    c.eventId == k.eventId && c.trip == cs[k].trip && c.vehicle == Some(cs[k].vehicle)
  }

  /** The listing has every row of the day, and rows of the ledger only. Reading `WHERE dt = day` gives one such listing,
      reading the whole ledger another. */
  ghost predicate ReadsDay(listing: seq<DayInputs.ConflictRow>, cs: Conflicts, day: int) {
    && (forall k :: k in cs && cs[k].day == day ==> exists c :: c in listing && Lists(c, cs, k))
    && (forall c :: c in listing ==> exists k :: k in cs && Lists(c, cs, k))
  }

  /** A live event is not excluded by any conflict row. */
  lemma LiveIsNotListed(t: Tables, seen: set<Event>, listing: seq<DayInputs.ConflictRow>, day: int, e: Event)
    requires Mirrors(t, seen) && AllValid(seen) && ReadsDay(listing, t.conflicts, day) && Live(seen, e)
    ensures e.id !in DayInputs.BlockedEventIds(listing) && !TripIn(e.trip, DayInputs.BlockedTripIds(listing))
  {
    LiveIsUnrecorded(t, seen, e);
    hide Mirrors, AllValid, Live;
    forall c | c in listing ensures c.eventId != e.id && !(e.trip.Some? && c.trip == e.trip) {
      var k :| k in t.conflicts && Lists(c, t.conflicts, k);
      assert k.eventId in ConflictedIds(t.conflicts);
      assert t.conflicts[k].trip.Some? ==> t.conflicts[k].trip.value in BlockedTrips(t.conflicts);
    }
  }

  /** A completion of a bad trip is excluded through its own day's rows. */
  lemma BadCompletionIsListed(t: Tables, seen: set<Event>, listing: seq<DayInputs.ConflictRow>, day: int, e: Event)
    requires DaysMirror(t, seen) && AllValid(seen) && ReadsDay(listing, t.conflicts, day)
    requires e in EventsOn(seen, day) && e.completed && HasBadTrip(seen, e)
    ensures TripIn(e.trip, DayInputs.BlockedTripIds(listing))
  {
    hide HasBadTrip, BadId;
    assert Valid(e) && TripOnDay(t.conflicts, e);
    var k :| k in t.conflicts && t.conflicts[k].trip == e.trip && t.conflicts[k].day == DayOf(e.ts);
    var c :| c in listing && Lists(c, t.conflicts, k);
    assert c.trip == e.trip;
  }

  /** An event with a bad id is excluded through its own day's rows. */
  lemma BadIdIsListed(t: Tables, seen: set<Event>, listing: seq<DayInputs.ConflictRow>, day: int, e: Event)
    requires DaysMirror(t, seen) && AllValid(seen) && ReadsDay(listing, t.conflicts, day)
    requires e in EventsOn(seen, day) && BadId(seen, e.id) && e.id != ""
    ensures e.id in DayInputs.BlockedEventIds(listing)
  {
    hide HasBadTrip, BadId;
    assert Valid(e) && NamedOnDay(t.conflicts, e);
    var k :| k in t.conflicts && k.eventId == e.id && t.conflicts[k].day == DayOf(e.ts);
    var c :| c in listing && Lists(c, t.conflicts, k);
    assert c.eventId == e.id;
  }

  /** The day's events that deduplication keeps: every live one is, and none whose id was used for two different events
      on any day. */
  lemma {:induction false} CleanDayKeepsLive(t: Tables, seen: set<Event>, listing: seq<DayInputs.ConflictRow>, day: int, e: Event)
    requires Mirrors(t, seen) && DaysMirror(t, seen) && AllValid(seen) && ReadsDay(listing, t.conflicts, day)
    requires e in EventsOn(seen, day) && e.id != ""
    ensures var clean := Aggregate.Clean(EventsOn(seen, day), Aggregate.BadIds(EventsOn(seen, day), DayInputs.BlockedEventIds(listing)));
            (Live(seen, e) ==> e in clean) && (e in clean ==> !BadId(seen, e.id))
  {
    if Live(seen, e) {
      LiveIsNotListed(t, seen, listing, day, e);
    }
    if BadId(seen, e.id) {
      BadIdIsListed(t, seen, listing, day, e);
    }
    hide Mirrors, DaysMirror, ReadsDay, HasBadTrip, DayInputs.BlockedEventIds;
  }

  /** A live completion counts on its day. */
  lemma {:induction false} LiveCompletionCounts(t: Tables, seen: set<Event>, listing: seq<DayInputs.ConflictRow>, day: int, e: Event)
    requires Mirrors(t, seen) && AllValid(seen) && ReadsDay(listing, t.conflicts, day)
    requires Live(seen, e) && e.completed && DayOf(e.ts) == day
    ensures e.trip.Some?
    ensures e.trip.value in Aggregate.GoodTrips(EventsOn(seen, day), DayInputs.BlockedEventIds(listing), DayInputs.BlockedTripIds(listing))
  {
    var events, ids, trips := EventsOn(seen, day), DayInputs.BlockedEventIds(listing), DayInputs.BlockedTripIds(listing);
    assert Valid(e) && e in events;
    LiveIsNotListed(t, seen, listing, day, e);
    LiveIsUncontested(seen, events, e);
    hide *;
    UncontestedCounts(events, ids, trips, e);
  }

  lemma UncontestedCounts(events: set<Event>, ids: set<string>, trips: set<string>, e: Event)
    requires e in events && e.completed && e.trip.Some? && e.id !in ids && !TripIn(e.trip, trips)
    requires !BadId(events, e.id) && !Contradicted(events, e.trip.value)
    ensures e.trip.value in Aggregate.GoodTrips(events, ids, trips)
  {
    var clean := set f | f in events && f.id !in ids && !BadId(events, f.id);
    Aggregate.GoodTripsAreUndisputed(events, ids, trips, e.trip.value);
    hide BadId, Aggregate.GoodTrips;
    assert e in clean;
    assert !Contradicted(clean, e.trip.value);
  }

  lemma CountedHasEvent(events: set<Event>, ids: set<string>, trips: set<string>, trip: string) returns (e: Event)
    requires trip in Aggregate.GoodTrips(events, ids, trips)
    ensures e in events && e.completed && e.trip == Some(trip) && trip !in trips
    ensures Aggregate.GoodTrips(events, ids, trips)[trip] == SignatureOf(e)
  {
    hide Aggregate.BadIds;
    var clean := Aggregate.Clean(events, Aggregate.BadIds(events, ids));
    Aggregate.RemainingTripsAgree(clean, trips);
    e :| e in clean && Aggregate.Counts(e, Aggregate.BadTripsOf(clean, trips)) && e.trip.value == trip;
  }

  /** Whatever counts on a day is a live completion of that day. */
  lemma {:induction false} CountedIsLive(t: Tables, seen: set<Event>, listing: seq<DayInputs.ConflictRow>, day: int, trip: string) returns (e: Event)
    requires DaysMirror(t, seen) && AllValid(seen) && ReadsDay(listing, t.conflicts, day)
    requires trip in Aggregate.GoodTrips(EventsOn(seen, day), DayInputs.BlockedEventIds(listing), DayInputs.BlockedTripIds(listing))
    ensures Live(seen, e) && e.completed && e.trip == Some(trip) && DayOf(e.ts) == day
    ensures Aggregate.GoodTrips(EventsOn(seen, day), DayInputs.BlockedEventIds(listing), DayInputs.BlockedTripIds(listing))[trip] == SignatureOf(e)
  {
    hide Aggregate.GoodTrips, DaysMirror, ReadsDay, Live, BadTrip, DayInputs.BlockedEventIds, DayInputs.BlockedTripIds, AllValid;
    e := CountedHasEvent(EventsOn(seen, day), DayInputs.BlockedEventIds(listing), DayInputs.BlockedTripIds(listing), trip);
    if HasBadTrip(seen, e) {
      BadCompletionIsListed(t, seen, listing, day, e);
    }
    OfGoodTripIsLive(seen, e);
  }

  /** After every admissible run, for every day: the trips that the daily aggregation counts from the day's events and the
      conflict rows it reads are the completed trips of that day, fact for fact. Filtering the ledger by day loses nothing:
      the result is the same with and without the filter. */
  lemma {:induction false} DailyTripsAreCompletedTrips(ds: seq<Delivery>, topic: Topic, listing: seq<DayInputs.ConflictRow>, day: int)
    requires Wellformed(ds) && Admissible(ds, topic) && DropsNothing(ds) && ReadsDay(listing, Run(ds).conflicts, day)
    ensures Aggregate.GoodTrips(EventsOn(Seen(ds), day), DayInputs.BlockedEventIds(listing), DayInputs.BlockedTripIds(listing))
         == CompletedOn(Run(ds).trips, day)
  {
    RunMirrorsReference(ds, topic);
    RunFilesByDay(ds, topic);
    SeenIsValid(ds);
    hide *;
    DayCountsCompleted(Run(ds), Seen(ds), listing, day);
  }

  lemma {:induction false} DayCountsCompleted(t: Tables, seen: set<Event>, listing: seq<DayInputs.ConflictRow>, day: int)
    requires Mirrors(t, seen) && DaysMirror(t, seen) && AllValid(seen) && ReadsDay(listing, t.conflicts, day)
    ensures Aggregate.GoodTrips(EventsOn(seen, day), DayInputs.BlockedEventIds(listing), DayInputs.BlockedTripIds(listing))
         == CompletedOn(t.trips, day)
  {
    hide *;
    var good := Aggregate.GoodTrips(EventsOn(seen, day), DayInputs.BlockedEventIds(listing), DayInputs.BlockedTripIds(listing));
    var done := CompletedOn(t.trips, day);
    forall trip | trip in good ensures trip in done && done[trip] == good[trip] {
      var e := CountedIsLive(t, seen, listing, day, trip);
      LiveIsCompleted(t, seen, day, trip, e);
    }
    forall trip | trip in done ensures trip in good {
      var e := CompletedIsLive(t, seen, day, trip);
      LiveCompletionCounts(t, seen, listing, day, e);
    }
  }

  lemma LiveIsCompleted(t: Tables, seen: set<Event>, day: int, trip: string, e: Event)
    requires Mirrors(t, seen) && Live(seen, e) && e.completed && e.trip == Some(trip) && DayOf(e.ts) == day
    ensures trip in CompletedOn(t.trips, day) && CompletedOn(t.trips, day)[trip] == SignatureOf(e)
  {
    hide Live, KeysMirror, ConflictsMirror, ContributionsMirror;
  }

  lemma CompletedIsLive(t: Tables, seen: set<Event>, day: int, trip: string) returns (e: Event)
    requires Mirrors(t, seen) && trip in CompletedOn(t.trips, day)
    ensures Live(seen, e) && e.completed && e.trip == Some(trip) && DayOf(e.ts) == day
  {
    hide Live, KeysMirror, ConflictsMirror, ContributionsMirror;
    e :| Live(seen, e) && e.completed && e.trip == Some(trip);
  }

  /* ---- vehicles the day withholds ---- */

  ghost function MarkedVehicles(seen: set<Event>, listing: seq<DayInputs.ConflictRow>, day: int): set<string> {
    Aggregate.ConflictedVehicles(EventsOn(seen, day), DayInputs.BlockedEventIds(listing), DayInputs.BlockedTripIds(listing))
  }

  /** An event whose id is bad, or a completion of a bad trip, marks its vehicle on its own day, wherever the events that
      contradict it lie. */
  lemma {:induction false} BadEventMarksVehicle(t: Tables, seen: set<Event>, listing: seq<DayInputs.ConflictRow>, day: int, e: Event)
    requires DaysMirror(t, seen) && AllValid(seen) && ReadsDay(listing, t.conflicts, day) && e in EventsOn(seen, day)
    requires (BadId(seen, e.id) && e.id != "") || (e.completed && HasBadTrip(seen, e))
    ensures e.vehicle in MarkedVehicles(seen, listing, day)
  {
    if BadId(seen, e.id) && e.id != "" {
      BadIdIsListed(t, seen, listing, day, e);
    } else {
      BadCompletionIsListed(t, seen, listing, day, e);
    }
    hide DaysMirror, AllValid, ReadsDay, EventsOn, BadId, HasBadTrip, DayInputs.BlockedEventIds, DayInputs.BlockedTripIds;
    ListedIsMarked(EventsOn(seen, day), DayInputs.BlockedEventIds(listing), DayInputs.BlockedTripIds(listing), e);
  }

  /** The day's conflict rows also name the vehicle itself, so its profit is withheld whatever the archive holds. */
  lemma {:induction false} BadEventNamesVehicle(t: Tables, seen: set<Event>, listing: seq<DayInputs.ConflictRow>, day: int, e: Event)
    requires DaysMirror(t, seen) && ReadsDay(listing, t.conflicts, day) && e in EventsOn(seen, day)
    requires BadId(seen, e.id) || (e.completed && HasBadTrip(seen, e))
    ensures exists c :: c in listing && c.vehicle == Some(e.vehicle)
  {
    hide BadId, HasBadTrip;
    var k :| k in t.conflicts && t.conflicts[k].day == DayOf(e.ts) && t.conflicts[k].vehicle == e.vehicle;
    var c :| c in listing && Lists(c, t.conflicts, k);
  }

  lemma ListedIsMarked(events: set<Event>, ids: set<string>, trips: set<string>, e: Event)
    requires e in events && (e.id in ids || (e.completed && TripIn(e.trip, trips)))
    ensures e.vehicle in Aggregate.ConflictedVehicles(events, ids, trips)
  {}

  /** No vehicle is marked without an event of that day that is not live. */
  lemma {:induction false} MarkedVehicleHasDeadEvent(t: Tables, seen: set<Event>, listing: seq<DayInputs.ConflictRow>, day: int, vehicle: string)
    requires Mirrors(t, seen) && AllValid(seen) && ReadsDay(listing, t.conflicts, day) && vehicle in MarkedVehicles(seen, listing, day)
    ensures exists e :: e in EventsOn(seen, day) && e.vehicle == vehicle && !Live(seen, e)
  {
    var ids, trips := DayInputs.BlockedEventIds(listing), DayInputs.BlockedTripIds(listing);
    var e := MarkedHasEvent(EventsOn(seen, day), ids, trips, vehicle);
    if Live(seen, e) {
      LiveIsNotListed(t, seen, listing, day, e);
      LiveIsUncontested(seen, EventsOn(seen, day), e);
    }
  }

  lemma MarkedHasEvent(events: set<Event>, ids: set<string>, trips: set<string>, vehicle: string) returns (e: Event)
    requires vehicle in Aggregate.ConflictedVehicles(events, ids, trips)
    ensures e in events && e.vehicle == vehicle
    ensures e.id in ids || BadId(events, e.id) || (e.trip.Some? && (e.trip.value in trips || Contradicted(events, e.trip.value)))
  {
    var bad := Aggregate.BadIds(events, ids);
    var clean := Aggregate.Clean(events, bad);
    if f :| f in events && f.id in bad && f.vehicle == vehicle {
      e := f;
    } else {
      e :| e in clean && e.completed && e.trip.Some? && e.trip.value in Aggregate.BadTripsOf(clean, trips) && e.vehicle == vehicle;
    }
  }

  lemma LiveIsUncontested(seen: set<Event>, events: set<Event>, e: Event)
    requires Live(seen, e) && events <= seen
    ensures !BadId(events, e.id) && (e.trip.Some? ==> !Contradicted(events, e.trip.value))
  {}

  /* ---- the report ---- */

  /** The report of a day: for every known vehicle the number of its completed trips of the day and their fares, for every
      zone with such trips the same, and nothing else. */
  ghost predicate ShowsTrips(rows: seq<Reconcile.ReportRow>, zones: map<string, (nat, nat)>, done: Trips, vehicles: seq<string>) {
    && |rows| == |vehicles|
    && (forall i :: 0 <= i < |vehicles| ==>
          rows[i].vehicle == vehicles[i] && (rows[i].trips, rows[i].revenue) == Aggregate.Total(done, Aggregate.Vehicle, vehicles[i]))
    && zones == map t | t in done :: done[t].zone := Aggregate.Total(done, Aggregate.Zone, done[t].zone)
  }

  /** If the archive holds the day's delivered events, the daily report shows the completed-trip table of that day. */
  lemma {:induction false} ReportShowsCompletedTrips(
    ds: seq<Delivery>, topic: Topic, listing: seq<DayInputs.ConflictRow>, day: int,
    noPaths: bool, costs: seq<Cost>, settings: DayInputs.Settings)
    requires Wellformed(ds) && Admissible(ds, topic) && DropsNothing(ds) && ReadsDay(listing, Run(ds).conflicts, day)
    requires DistinctVehicles(costs) && (noPaths ==> EventsOn(Seen(ds), day) == {})
    requires DayInputs.Assemble(day, noPaths, EventsOn(Seen(ds), day), costs, settings, listing).Computed?
    ensures var r := DayInputs.Assemble(day, noPaths, EventsOn(Seen(ds), day), costs, settings, listing).report;
            ShowsTrips(r.rows, r.zones, CompletedOn(Run(ds).trips, day), Text.Sort(settings.vehicles))
  {
    DailyTripsAreCompletedTrips(ds, topic, listing, day);
    hide *;
    AssembledShowsTrips(day, noPaths, EventsOn(Seen(ds), day), costs, settings, listing);
  }

  lemma {:induction false} AssembledShowsTrips(
    day: int, noPaths: bool, events: set<Event>, costs: seq<Cost>, settings: DayInputs.Settings, listing: seq<DayInputs.ConflictRow>)
    requires DistinctVehicles(costs) && (noPaths ==> events == {})
    requires DayInputs.Assemble(day, noPaths, events, costs, settings, listing).Computed?
    ensures var r := DayInputs.Assemble(day, noPaths, events, costs, settings, listing).report;
            ShowsTrips(r.rows, r.zones, Aggregate.GoodTrips(events, DayInputs.BlockedEventIds(listing), DayInputs.BlockedTripIds(listing)),
                       Text.Sort(settings.vehicles))
  {
    var ids, trips := DayInputs.BlockedEventIds(listing), DayInputs.BlockedTripIds(listing);
    var good, vehicles, known := Aggregate.GoodTrips(events, ids, trips), Text.Sort(settings.vehicles), settings.vehicles;
    var conflicted := Aggregate.ConflictedVehicles(events, ids, trips);
    var coverage := DayInputs.CoverageOf(settings, day, noPaths, Aggregate.Clean(events, Aggregate.BadIds(events, ids)), conflicted);
    var telemetry := map v | v in coverage :: coverage[v].complete;
    hide Aggregate.AggregateEvents, Aggregate.NoPathsReport, DayInputs.CoverageOf, DayInputs.OverrideAll, ShowsTrips, Text.Sort,
      Aggregate.BadIds, Aggregate.Clean, Aggregate.ConflictedVehicles, Aggregate.GoodTrips, DayInputs.BlockedEventIds,
      DayInputs.BlockedTripIds, DayInputs.ConflictedBy, DayInputs.OverrideCoverage, DistinctVehicles;
    if noPaths {
      EmptyDayShowsNothing(vehicles, costs, ids, trips);
      OverrideKeepsTrips(Aggregate.NoPathsReport(vehicles, costs), good, vehicles, DayInputs.ConflictedBy(listing));
    } else {
      AggregateShowsTrips(events, costs, day, known, ids, trips, telemetry);
      OverrideKeepsTrips(Aggregate.AggregateEvents(events, costs, day, known, ids, trips, telemetry), good, vehicles,
                         DayInputs.ConflictedBy(listing));
    }
  }

  lemma OverrideKeepsTrips(outcome: Aggregate.Outcome, done: Trips, vehicles: seq<string>, named: set<string>)
    requires outcome.Report? && ShowsTrips(outcome.rows, outcome.zones, done, vehicles)
    ensures ShowsTrips(DayInputs.OverrideAll(outcome.rows, named), outcome.zones, done, vehicles)
  {
    hide Aggregate.Total;
  }

  lemma EmptyDayShowsNothing(vehicles: seq<string>, costs: seq<Cost>, ids: set<string>, trips: set<string>)
    ensures var outcome := Aggregate.NoPathsReport(vehicles, costs);
            outcome.Report? && ShowsTrips(outcome.rows, outcome.zones, Aggregate.GoodTrips({}, ids, trips), vehicles)
  {
    NothingCounts(ids, trips);
    hide Aggregate.GoodTrips, Aggregate.Total, Reconcile.CostMap;
    forall i | 0 <= i < |vehicles| ensures Aggregate.Total(map[], Aggregate.Vehicle, vehicles[i]) == (0, 0) {
      Aggregate.NoTripsNoTotal(Aggregate.Vehicle, vehicles[i]);
    }
  }

  lemma AggregateShowsTrips(
    events: set<Event>, costs: seq<Cost>, day: int, known: set<string>, ids: set<string>, trips: set<string>, telemetry: map<string, bool>)
    requires DistinctVehicles(costs) && Aggregate.AggregateEvents(events, costs, day, known, ids, trips, telemetry).Report?
    ensures var outcome := Aggregate.AggregateEvents(events, costs, day, known, ids, trips, telemetry);
            ShowsTrips(outcome.rows, outcome.zones, Aggregate.GoodTrips(events, ids, trips), Text.Sort(known))
  {
    hide Aggregate.GoodTrips, Aggregate.ConflictedVehicles, Aggregate.JoinAll, Text.Sort, DistinctVehicles, Reconcile.CostMap;
    hide Aggregate.RowOf, Aggregate.Total;
    var vehicles, good, conflicted := Text.Sort(known), Aggregate.GoodTrips(events, ids, trips), Aggregate.ConflictedVehicles(events, ids, trips);
    Aggregate.JoinIsOneRowEach(vehicles, good, costs, conflicted, telemetry);
    forall i | 0 <= i < |vehicles|
      ensures var row := Aggregate.RowOf(vehicles[i], good, Reconcile.CostMap(costs), conflicted, telemetry);
              row.vehicle == vehicles[i] && (row.trips, row.revenue) == Aggregate.Total(good, Aggregate.Vehicle, vehicles[i])
    {
      RowShowsTotal(vehicles[i], good, Reconcile.CostMap(costs), conflicted, telemetry);
    }
  }

  lemma RowShowsTotal(vehicle: string, good: Trips, costs: map<string, Cost>, conflicted: set<string>, telemetry: map<string, bool>)
    ensures var row := Aggregate.RowOf(vehicle, good, costs, conflicted, telemetry);
            row.vehicle == vehicle && (row.trips, row.revenue) == Aggregate.Total(good, Aggregate.Vehicle, vehicle)
  {
    hide Aggregate.Total;
  }

  lemma NothingCounts(ids: set<string>, trips: set<string>)
    ensures Aggregate.GoodTrips({}, ids, trips) == map[]
  {}
}
