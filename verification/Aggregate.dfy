/**
 The distributed daily aggregation: deduplication, conflict exclusion, totals per vehicle
 and zone, and the joins that make the report.
 */
module Aggregate {
  import Text
  import Sums
  import opened Events
  import opened Reference
  import opened Expenses
  import opened Reconcile

  /** An archived row: the business event and what a retry may change. */
  datatype ArchiveRow = ArchiveRow(event: Event, ingest: int)

  /** Trips that count, with the facts all their completions share. */
  type Trips = map<string, Signature>

  datatype AggregateError = WrongDatePartition | StrangeVehicle

  datatype Outcome = Report(rows: seq<ReportRow>, zones: map<string, (nat, nat)>) | Failed(error: AggregateError)

  function BusinessEvents(raw: seq<ArchiveRow>): set<Event> {
    set r | r in raw :: r.event
  }

  /* ---- conflict exclusion, as a function of the business events ---- */

  function BadIds(events: set<Event>, blocked: set<string>): set<string> {
    (set a, b | a in events && b in events && a.id == b.id && a != b :: a.id) + blocked
  }

  function Clean(events: set<Event>, badIds: set<string>): set<Event> {
    set e | e in events && e.id !in badIds
  }

  function BadTripsOf(clean: set<Event>, blocked: set<string>): set<string> {
    (set a, b | a in clean && b in clean && a.completed && b.completed && a.trip.Some? && a.trip == b.trip
                && SignatureOf(a) != SignatureOf(b) :: a.trip.value) + blocked
  }

  /** A completed event that counts toward its trip. */
  predicate Counts(e: Event, badTrips: set<string>) {
    e.completed && e.trip.Some? && e.trip.value !in badTrips
  }

  predicate TripsAgree(clean: set<Event>, badTrips: set<string>) {
    forall a, b :: a in clean && b in clean && Counts(a, badTrips) && Counts(b, badTrips) && a.trip == b.trip
      ==> SignatureOf(a) == SignatureOf(b)
  }

  function CountedTrips(clean: set<Event>, badTrips: set<string>): Trips
    requires TripsAgree(clean, badTrips)
  {
    map e | e in clean && Counts(e, badTrips) :: e.trip.value := SignatureOf(e)
  }

  lemma RemainingTripsAgree(clean: set<Event>, blocked: set<string>)
    ensures TripsAgree(clean, BadTripsOf(clean, blocked))
  {}

  /** The trips that count, from the business events alone. */
  function GoodTrips(events: set<Event>, blockedIds: set<string>, blockedTrips: set<string>): Trips {
    var clean := Clean(events, BadIds(events, blockedIds));
    RemainingTripsAgree(clean, blockedTrips);
    CountedTrips(clean, BadTripsOf(clean, blockedTrips))
  }

  /** A trip counts exactly if nobody blocked it, some completion of it has an undisputed id, and no two such completions
      contradict each other. */
  lemma {:induction false} GoodTripsAreUndisputed(events: set<Event>, blockedIds: set<string>, blockedTrips: set<string>, trip: string)
    ensures var clean := set e | e in events && e.id !in blockedIds && !BadId(events, e.id);
            trip in GoodTrips(events, blockedIds, blockedTrips) <==>
              && trip !in blockedTrips && !Contradicted(clean, trip)
              && exists e :: e in clean && e.completed && e.trip == Some(trip)
  {
    var bad := BadIds(events, blockedIds);
    var clean := set e | e in events && e.id !in blockedIds && !BadId(events, e.id);
    forall e | e in events ensures e.id in bad <==> e.id in blockedIds || BadId(events, e.id) {}
    assert Clean(events, bad) == clean;
    hide BadIds, Clean, BadId;
    RemainingTripsAgree(clean, blockedTrips);
    assert trip in BadTripsOf(clean, blockedTrips) <==> trip in blockedTrips || Contradicted(clean, trip);
  }

  /** Vehicles that appear with a bad id or with a completion of a bad trip. */
  function ConflictedVehicles(events: set<Event>, blockedIds: set<string>, blockedTrips: set<string>): set<string> {
    var badIds := BadIds(events, blockedIds);
    var clean := Clean(events, badIds);
    (set e | e in events && e.id in badIds :: e.vehicle)
    + (set e | e in clean && e.completed && e.trip.Some? && e.trip.value in BadTripsOf(clean, blockedTrips) :: e.vehicle)
  }

  /* ---- deduplication keeps an arbitrary row per key ---- */

  /** `dropDuplicates(["event_id"])` after the anti-join: one row for each id that is not bad. */
  ghost predicate DedupedById(raw: seq<ArchiveRow>, badIds: set<string>, clean: seq<ArchiveRow>) {
    && (forall r :: r in clean ==> r in raw && r.event.id !in badIds)
    && (forall r :: r in raw && r.event.id !in badIds ==> exists c :: c in clean && c.event.id == r.event.id)
    && (forall i, j :: 0 <= i < j < |clean| ==> clean[i].event.id != clean[j].event.id)
  }

  /** `dropDuplicates(["trip_id"])` after the second anti-join: one row for each trip that counts. */
  ghost predicate DedupedByTrip(clean: seq<ArchiveRow>, badTrips: set<string>, trips: seq<ArchiveRow>) {
    && (forall r :: r in trips ==> r in clean && Counts(r.event, badTrips))
    && (forall r :: r in clean && Counts(r.event, badTrips) ==> exists t :: t in trips && t.event.trip == r.event.trip)
    && (forall i, j :: 0 <= i < j < |trips| ==> trips[i].event.trip != trips[j].event.trip)
  }

  lemma UnlistedIdsAreUnambiguous(events: set<Event>, blocked: set<string>)
    ensures forall a, b :: a in events && b in events && a.id == b.id && a.id !in BadIds(events, blocked) ==> a == b
  {}

  lemma EventOfRow(rows: seq<ArchiveRow>, r: ArchiveRow)
    requires r in rows
    ensures r.event in BusinessEvents(rows)
  {}

  lemma RowOfEvent(rows: seq<ArchiveRow>, e: Event) returns (r: ArchiveRow)
    requires e in BusinessEvents(rows)
    ensures r in rows && r.event == e
  {
    r :| r in rows && r.event == e;
  }

  /** Whatever rows deduplication keeps, their business events are the clean ones. */
  lemma {:induction false} DedupKeepsCleanEvents(raw: seq<ArchiveRow>, badIds: set<string>, clean: seq<ArchiveRow>)
    requires DedupedById(raw, badIds, clean)
    requires forall a, b :: a in BusinessEvents(raw) && b in BusinessEvents(raw) && a.id == b.id && a.id !in badIds ==> a == b
    ensures BusinessEvents(clean) == Clean(BusinessEvents(raw), badIds)
  {
    hide BusinessEvents;
    var events := BusinessEvents(raw);
    forall e | e in Clean(events, badIds) ensures e in BusinessEvents(clean) {
      var r := RowOfEvent(raw, e);
      var c :| c in clean && c.event.id == r.event.id;
      EventOfRow(raw, c);
      EventOfRow(clean, c);
    }
    forall e | e in BusinessEvents(clean) ensures e in Clean(events, badIds) {
      var c := RowOfEvent(clean, e);
      EventOfRow(raw, c);
    }
  }

  /* ---- totals ---- */

  datatype Key = Vehicle | Zone

  function KeyOf(key: Key, s: Signature): string {
    match key
    case Vehicle => s.vehicle
    case Zone => s.zone
  }

  function GroupsOf(trips: Trips, key: Key): map<string, string> {
    map t | t in trips :: KeyOf(key, trips[t])
  }

  function FareOf(trips: Trips): map<string, nat> {
    map t | t in trips :: trips[t].fare
  }

  function TripsIn(trips: Trips, key: Key, g: string): set<string> {
    set t | t in trips && KeyOf(key, trips[t]) == g
  }

  lemma TripsInIsGroup(trips: Trips, key: Key, g: string)
    ensures TripsIn(trips, key, g) == Sums.Group(GroupsOf(trips, key), trips.Keys, g)
  {}

  /** (count, sum of fares) of one vehicle's or zone's trips. */
  function Total(trips: Trips, key: Key, g: string): (nat, nat) {
    (|TripsIn(trips, key, g)|, Sums.Sum(FareOf(trips), TripsIn(trips, key, g)))
  }

  /** `groupBy(key).agg(count("*"), sum("fare_cents"))` over the kept rows. */
  function RowTotal(rows: seq<ArchiveRow>, key: Key, g: string): (nat, nat) {
    if rows == [] then (0, 0)
    else
      var most, e := RowTotal(rows[..|rows| - 1], key, g), rows[|rows| - 1].event;
      if KeyOf(key, SignatureOf(e)) == g then (most.0 + 1, most.1 + e.fare) else most
  }

  /** The trips among the rows of a deduplicated list. */
  function Picked(rows: seq<ArchiveRow>): Trips {
    if rows == [] then map[]
    else
      var most, e := Picked(rows[..|rows| - 1]), rows[|rows| - 1].event;
      if e.trip.Some? then most[e.trip.value := SignatureOf(e)] else most
  }

  predicate OneRowPerTrip(rows: seq<ArchiveRow>) {
    && (forall i :: 0 <= i < |rows| ==> rows[i].event.trip.Some?)
    && (forall i, j :: 0 <= i < j < |rows| ==> rows[i].event.trip != rows[j].event.trip)
  }

  lemma {:induction false} PickedMembers(rows: seq<ArchiveRow>)
    requires OneRowPerTrip(rows)
    ensures forall t :: t in Picked(rows) <==> exists r :: r in rows && r.event.trip == Some(t)
    ensures forall r :: r in rows ==> r.event.trip.value in Picked(rows) && Picked(rows)[r.event.trip.value] == SignatureOf(r.event)
  {
    if rows != [] {
      var most, last := rows[..|rows| - 1], rows[|rows| - 1];
      assert rows == most + [last];
      PickedMembers(most);
      LastTripIsNew(rows);
    }
  }

  lemma LastTripIsNew(rows: seq<ArchiveRow>)
    requires rows != [] && OneRowPerTrip(rows)
    ensures forall r :: r in rows[..|rows| - 1] ==> r.event.trip != rows[|rows| - 1].event.trip
  {
    var most := rows[..|rows| - 1];
    forall i | 0 <= i < |most| ensures most[i].event.trip != rows[|rows| - 1].event.trip {
      assert most[i] == rows[i];
    }
  }

  /** A new trip adds one and its fare to its own group, and nothing to the others. */
  lemma {:induction false} NewTripAdds(trips: Trips, trip: string, s: Signature, key: Key, g: string)
    requires trip !in trips
    ensures var was, now := Total(trips, key, g), Total(trips[trip := s], key, g);
            now == if KeyOf(key, s) == g then (was.0 + 1, was.1 + s.fare) else was
  {
    hide Sums.Sum, TripsIn, KeyOf, Sums.Group;
    var after := trips[trip := s];
    TripsInIsGroup(trips, key, g);
    TripsInIsGroup(after, key, g);
    assert GroupsOf(trips, key).Keys == trips.Keys && GroupsOf(after, key).Keys == after.Keys;
    assert GroupsOf(after, key) == GroupsOf(trips, key)[trip := KeyOf(key, s)] && FareOf(after) == FareOf(trips)[trip := s.fare];
    Sums.NewItemJoins(FareOf(trips), GroupsOf(trips, key), trip, s.fare, KeyOf(key, s), g);
  }

  lemma NoTripsNoTotal(key: Key, g: string)
    ensures Total(map[], key, g) == (0, 0)
  {
    assert TripsIn(map[], key, g) == {};
  }

  /** Counting and summing rows is counting and summing trips. */
  lemma {:induction false} RowTotalIsTripTotal(rows: seq<ArchiveRow>, key: Key, g: string)
    requires OneRowPerTrip(rows)
    ensures RowTotal(rows, key, g) == Total(Picked(rows), key, g)
  {
    hide Sums.Sum;
    if rows == [] {
      NoTripsNoTotal(key, g);
    } else {
      hide Total, OneRowPerTrip;
      var most, last := rows[..|rows| - 1], rows[|rows| - 1];
      RowTotalIsTripTotal(most, key, g);
      PickedMembers(most);
      LastTripIsNew(rows);
      NewTripAdds(Picked(most), last.event.trip.value, SignatureOf(last.event), key, g);
    }
  }

  /** For any rows that both deduplications may keep, the totals per vehicle and per zone are those of the
      trips that count: a function of the set of business events. */
  lemma {:induction false} TotalsIgnoreDeduplication(
    raw: seq<ArchiveRow>, blockedIds: set<string>, blockedTrips: set<string>,
    clean: seq<ArchiveRow>, trips: seq<ArchiveRow>, key: Key, g: string)
    requires DedupedById(raw, BadIds(BusinessEvents(raw), blockedIds), clean)
    requires DedupedByTrip(clean, BadTripsOf(BusinessEvents(clean), blockedTrips), trips)
    ensures RowTotal(trips, key, g) == Total(GoodTrips(BusinessEvents(raw), blockedIds, blockedTrips), key, g)
  {
    var events := BusinessEvents(raw);
    UnlistedIdsAreUnambiguous(events, blockedIds);
    DedupKeepsCleanEvents(raw, BadIds(events, blockedIds), clean);
    TripRowsAreOnePerTrip(clean, BadTripsOf(BusinessEvents(clean), blockedTrips), trips);
    RowTotalIsTripTotal(trips, key, g);
    PickedAreGood(raw, blockedIds, blockedTrips, clean, trips);
  }

  lemma TripRowsAreOnePerTrip(clean: seq<ArchiveRow>, badTrips: set<string>, trips: seq<ArchiveRow>)
    requires DedupedByTrip(clean, badTrips, trips)
    ensures OneRowPerTrip(trips)
  {
    forall i | 0 <= i < |trips| ensures trips[i].event.trip.Some? {
      assert trips[i] in trips;
    }
  }

  lemma {:induction false} PickedAreGood(
    raw: seq<ArchiveRow>, blockedIds: set<string>, blockedTrips: set<string>, clean: seq<ArchiveRow>, trips: seq<ArchiveRow>)
    requires var events := BusinessEvents(raw); BusinessEvents(clean) == Clean(events, BadIds(events, blockedIds))
    requires DedupedByTrip(clean, BadTripsOf(BusinessEvents(clean), blockedTrips), trips) && OneRowPerTrip(trips)
    ensures Picked(trips) == GoodTrips(BusinessEvents(raw), blockedIds, blockedTrips)
  {
    hide BadIds, BadTripsOf, CountedTrips, Picked, TripsAgree, DedupedByTrip, OneRowPerTrip, Clean, BusinessEvents;
    RemainingTripsAgree(BusinessEvents(clean), blockedTrips);
    PickedAreCounted(clean, BadTripsOf(BusinessEvents(clean), blockedTrips), trips);
  }

  /** The picked trips are the counted ones, with the signature their completions share. */
  lemma {:induction false} PickedAreCounted(clean: seq<ArchiveRow>, badTrips: set<string>, trips: seq<ArchiveRow>)
    requires DedupedByTrip(clean, badTrips, trips) && OneRowPerTrip(trips)
    requires TripsAgree(BusinessEvents(clean), badTrips)
    ensures Picked(trips) == CountedTrips(BusinessEvents(clean), badTrips)
  {
    hide BusinessEvents, OneRowPerTrip;
    var counted := CountedTrips(BusinessEvents(clean), badTrips);
    PickedMembers(trips);
    forall t | t in counted ensures t in Picked(trips) && Picked(trips)[t] == counted[t] {
      var e :| e in BusinessEvents(clean) && Counts(e, badTrips) && e.trip.value == t;
      var c := RowOfEvent(clean, e);
      var r :| r in trips && r.event.trip == c.event.trip;
      EventOfRow(clean, r);
    }
    forall t | t in Picked(trips) ensures t in counted {
      var r :| r in trips && r.event.trip == Some(t);
      EventOfRow(clean, r);
    }
  }

  function TripTotals(trips: Trips, key: Key, over: set<string>): map<string, nat> {
    map g | g in over :: Total(trips, key, g).0
  }

  function RevenueTotals(trips: Trips, key: Key, over: set<string>): map<string, nat> {
    map g | g in over :: Total(trips, key, g).1
  }

  /** Whatever the key, the totals of all its groups add up to all trips and all revenue. */
  lemma {:induction false} TotalsAreConserved(trips: Trips, key: Key, over: set<string>)
    requires forall t :: t in trips ==> KeyOf(key, trips[t]) in over
    ensures Sums.Sum(TripTotals(trips, key, over), over) == |trips|
    ensures Sums.Sum(RevenueTotals(trips, key, over), over) == Sums.Sum(FareOf(trips), trips.Keys)
  {
    var groups := GroupsOf(trips, key);
    hide Sums.Sum, KeyOf, Sums.SumOfGroups;
    forall g | g in over
      ensures TripTotals(trips, key, over)[g] == Sums.Sum(Ones(trips), Sums.Group(groups, trips.Keys, g))
      ensures RevenueTotals(trips, key, over)[g] == Sums.Sum(FareOf(trips), Sums.Group(groups, trips.Keys, g))
    {
      TripsInIsGroup(trips, key, g);
      SumOfOnes(Ones(trips), TripsIn(trips, key, g));
    }
    Sums.GroupsAsSum(Ones(trips), groups, trips.Keys, over, TripTotals(trips, key, over));
    Sums.GroupsAsSum(FareOf(trips), groups, trips.Keys, over, RevenueTotals(trips, key, over));
    Sums.GroupingConserves(Ones(trips), groups, trips.Keys, over);
    Sums.GroupingConserves(FareOf(trips), groups, trips.Keys, over);
    SumOfOnes(Ones(trips), trips.Keys);
  }

  function Ones(trips: Trips): map<string, nat> {
    map t | t in trips :: 1
  }

  lemma {:induction false} SumOfOnes(ones: map<string, nat>, keys: set<string>)
    requires keys <= ones.Keys && forall k :: k in keys ==> ones[k] == 1
    ensures Sums.Sum(ones, keys) == |keys|
  {
    if keys != {} {
      SumOfOnes(ones, keys - {Text.LeastOf(keys)});
    }
  }

  /* ---- the joins ---- */

  /** Cost rows a vehicle joins with; a left join keeps the vehicle when there is none. */
  function CostRows(costs: seq<Cost>, vehicle: string): seq<Cost> {
    if costs == [] then []
    else
      var most, last := CostRows(costs[..|costs| - 1], vehicle), costs[|costs| - 1];
      if last.vehicle == vehicle then most + [last] else most
  }

  function LeftJoined(matches: seq<Cost>): seq<Option<Cost>> {
    if matches == [] then [None] else seq(|matches|, i requires 0 <= i < |matches| => Some(matches[i]))
  }

  function StatusOf(conflict: bool, telemetry: bool, cost: Option<Cost>): RowStatus {
    if conflict then ConflictingEvents
    else if !telemetry then IncompleteTelemetry
    else if cost.None? then MissingExpenses
    else Complete
  }

  function JoinedRow(vehicle: string, total: (nat, nat), cost: Option<Cost>, conflict: bool, telemetry: bool): ReportRow {
    var status := StatusOf(conflict, telemetry, cost);
    var fuel := if cost.Some? then Some(cost.value.fuel) else None;
    var maintenance := if cost.Some? then Some(cost.value.maintenance) else None;
    if status == Complete && cost.Some? then
      var profit := total.1 - cost.value.fuel - cost.value.maintenance;
      ReportRow(vehicle, total.0, total.1, fuel, maintenance, Some(profit), Some(profit < 0), status)
    else
      ReportRow(vehicle, total.0, total.1, fuel, maintenance, None, None, status)
  }

  function RowsOfVehicle(
    vehicle: string, trips: Trips, costs: seq<Cost>, conflicted: set<string>, telemetry: map<string, bool>): seq<ReportRow>
  {
    var joined := LeftJoined(CostRows(costs, vehicle));
    seq(|joined|, i requires 0 <= i < |joined| =>
      JoinedRow(vehicle, Total(trips, Vehicle, vehicle), joined[i], vehicle in conflicted, vehicle in telemetry && telemetry[vehicle]))
  }

  function JoinAll(
    vehicles: seq<string>, trips: Trips, costs: seq<Cost>, conflicted: set<string>, telemetry: map<string, bool>): seq<ReportRow>
  {
    if vehicles == [] then []
    else JoinAll(vehicles[..|vehicles| - 1], trips, costs, conflicted, telemetry)
         + RowsOfVehicle(vehicles[|vehicles| - 1], trips, costs, conflicted, telemetry)
  }

  /** The whole aggregation of a day's business events; `telemetry` is the coverage verdict per vehicle. */
  function AggregateEvents(
    events: set<Event>, costs: seq<Cost>, day: int, known: set<string>,
    blockedIds: set<string>, blockedTrips: set<string>, telemetry: map<string, bool>): Outcome
  {
    if exists e :: e in events && DayOf(e.ts) != day then Failed(WrongDatePartition)
    else if exists e :: e in events && e.vehicle !in known then Failed(StrangeVehicle)
    else
      var trips := GoodTrips(events, blockedIds, blockedTrips);
      Outcome.Report(
        JoinAll(Text.Sort(known), trips, costs, ConflictedVehicles(events, blockedIds, blockedTrips), telemetry),
        map t | t in trips :: trips[t].zone := Total(trips, Zone, trips[t].zone))
  }

  function AggregateDay(
    raw: seq<ArchiveRow>, costs: seq<Cost>, day: int, known: set<string>,
    blockedIds: set<string>, blockedTrips: set<string>, telemetry: map<string, bool>): Outcome
  {
    AggregateEvents(BusinessEvents(raw), costs, day, known, blockedIds, blockedTrips, telemetry)
  }

  /** The early answer for a day without archived files: explicit unknowns, whatever the costs are. */
  function NoPathsRow(vehicle: string, costs: map<string, Cost>): ReportRow {
    ReportRow(vehicle, 0, 0,
              if vehicle in costs then Some(costs[vehicle].fuel) else None,
              if vehicle in costs then Some(costs[vehicle].maintenance) else None,
              None, None, IncompleteTelemetry)
  }

  function NoPathsReport(vehicles: seq<string>, costs: seq<Cost>): Outcome {
    Outcome.Report(seq(|vehicles|, i requires 0 <= i < |vehicles| => NoPathsRow(vehicles[i], CostMap(costs))), map[])
  }

  /** The early answer is what the aggregation gives for no events and no coverage: it only saves the work. */
  lemma {:induction false} NoPathsIsTheEmptyDay(
    costs: seq<Cost>, day: int, known: set<string>, blockedIds: set<string>, blockedTrips: set<string>, telemetry: map<string, bool>)
    requires DistinctVehicles(costs) && forall v :: v in known ==> v in telemetry && !telemetry[v]
    ensures AggregateEvents({}, costs, day, known, blockedIds, blockedTrips, telemetry) == NoPathsReport(Text.Sort(known), costs)
  {
    hide Text.Sort, JoinAll, CostMap, Sums.Sum;
    var vehicles := Text.Sort(known);
    assert GoodTrips({}, blockedIds, blockedTrips) == map[];
    assert ConflictedVehicles({}, blockedIds, blockedTrips) == {};
    JoinIsOneRowEach(vehicles, map[], costs, {}, telemetry);
    forall i | 0 <= i < |vehicles| ensures JoinAll(vehicles, map[], costs, {}, telemetry)[i] == NoPathsRow(vehicles[i], CostMap(costs)) {
      assert vehicles[i] in vehicles;
      NoTripsNoTotal(Vehicle, vehicles[i]);
    }
  }

  /** A vehicle has exactly one report row exactly if it has at most one cost row. */
  lemma OneRowPerVehicle(vehicle: string, trips: Trips, costs: seq<Cost>, conflicted: set<string>, telemetry: map<string, bool>)
    ensures |RowsOfVehicle(vehicle, trips, costs, conflicted, telemetry)| == 1 <==> |CostRows(costs, vehicle)| <= 1
  {}

  lemma {:induction false} DistinctCostsJoinOnce(costs: seq<Cost>, vehicle: string)
    requires DistinctVehicles(costs)
    ensures CostRows(costs, vehicle) == if vehicle in CostMap(costs) then [CostMap(costs)[vehicle]] else []
    ensures vehicle in CostMap(costs) <==> exists c :: c in costs && c.vehicle == vehicle
  {
    if costs != [] {
      var most, last := costs[..|costs| - 1], costs[|costs| - 1];
      assert costs == most + [last];
      DistinctCostsJoinOnce(most, vehicle);
      forall i | 0 <= i < |most| ensures most[i].vehicle != last.vehicle {
        assert most[i] == costs[i];
      }
    }
  }

  /** The row of a vehicle that joins with at most one cost row. */
  function RowOf(vehicle: string, trips: Trips, costs: map<string, Cost>, conflicted: set<string>, telemetry: map<string, bool>): ReportRow {
    JoinedRow(vehicle, Total(trips, Vehicle, vehicle), if vehicle in costs then Some(costs[vehicle]) else None,
              vehicle in conflicted, vehicle in telemetry && telemetry[vehicle])
  }

  /** With distinct cost rows, as validation guarantees, the report has exactly one row per known vehicle, in order. */
  lemma {:induction false} JoinIsOneRowEach(
    vehicles: seq<string>, trips: Trips, costs: seq<Cost>, conflicted: set<string>, telemetry: map<string, bool>)
    requires DistinctVehicles(costs)
    ensures var rows := JoinAll(vehicles, trips, costs, conflicted, telemetry);
            && |rows| == |vehicles|
            && forall i :: 0 <= i < |vehicles| ==> rows[i] == RowOf(vehicles[i], trips, CostMap(costs), conflicted, telemetry)
  {
    if vehicles != [] {
      hide RowOf, CostMap, DistinctVehicles, JoinAll;
      var most := vehicles[..|vehicles| - 1];
      JoinIsOneRowEach(most, trips, costs, conflicted, telemetry);
      LastJoinsOnce(vehicles, trips, costs, conflicted, telemetry);
      forall i | 0 <= i < |most| ensures most[i] == vehicles[i] {}
    }
  }

  lemma LastJoinsOnce(vehicles: seq<string>, trips: Trips, costs: seq<Cost>, conflicted: set<string>, telemetry: map<string, bool>)
    requires vehicles != [] && DistinctVehicles(costs)
    ensures var last := |vehicles| - 1;
            JoinAll(vehicles, trips, costs, conflicted, telemetry)
            == JoinAll(vehicles[..last], trips, costs, conflicted, telemetry)
               + [RowOf(vehicles[last], trips, CostMap(costs), conflicted, telemetry)]
  {
    hide RowOf, CostMap, DistinctVehicles, RowsOfVehicle;
    OnlyRowOfVehicle(vehicles[|vehicles| - 1], trips, costs, conflicted, telemetry);
  }

  lemma OnlyRowOfVehicle(vehicle: string, trips: Trips, costs: seq<Cost>, conflicted: set<string>, telemetry: map<string, bool>)
    requires DistinctVehicles(costs)
    ensures RowsOfVehicle(vehicle, trips, costs, conflicted, telemetry) == [RowOf(vehicle, trips, CostMap(costs), conflicted, telemetry)]
  {
    hide Total, JoinedRow, CostMap, DistinctVehicles, CostRows;
    DistinctCostsJoinOnce(costs, vehicle);
  }
}
