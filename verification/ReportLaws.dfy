/** What a computed report says, and when there is none, from the expense rows, the events and the conflict rows alone. */
module ReportLaws {
  import Text
  import Aggregate
  import opened Coverage
  import opened DayCoverage
  import opened DayInputs
  import opened Events
  import opened Manifests
  import opened Expenses
  import opened Reconcile

  /* ---- when there is a report ---- */

  /** The share of quarantined rows is at most the threshold. */
  ghost predicate GoodEnough(rows: seq<ExpenseRow>, day: string, settings: Settings) {
    rows != [] && (|rows| - |FlawlessRows(rows, |rows|, day, settings.vehicles)|) as real <= settings.threshold * |rows| as real
  }

  /** Every archived event of the files lies on the day and belongs to a known vehicle. */
  ghost predicate FilesFit(lib: Library, files: set<(Path, Item)>, at: int, known: set<string>) {
    forall f, e :: f in files && e in lib.decode(f.1.digest) ==> DayOf(e.ts) == at && e.vehicle in known
  }

  lemma GateMeans(total: nat, rejected: nat, threshold: real)
    requires total > 0
    ensures GateFails(total, rejected, threshold) <==> rejected as real > threshold * total as real
  {
    assert rejected as real / total as real * total as real == rejected as real;
    if rejected as real / total as real > threshold {
      assert (rejected as real / total as real - threshold) * total as real > 0.0;
    } else {
      assert (threshold - rejected as real / total as real) * total as real >= 0.0;
    }
  }

  /** A day's report is computed exactly if the date and the expense file can be read, enough of its rows are flawless, and
      the archived events fit the day and the known vehicles. */
  lemma {:induction false} ComputedExactly(lib: Library, day: string, inputs: Inputs)
    ensures Compute(lib, day, inputs).Computed? <==>
              && lib.ordinal(day).Some? && lib.parse(inputs.expenses).Some?
              && GoodEnough(lib.parse(inputs.expenses).value, day, inputs.settings)
              && FilesFit(lib, inputs.files, lib.ordinal(day).value, inputs.settings.vehicles)
  {
    hide *;
    if lib.ordinal(day).Some? && lib.parse(inputs.expenses).Some? && lib.parse(inputs.expenses).value != [] {
      var at, rows, known := lib.ordinal(day).value, lib.parse(inputs.expenses).value, inputs.settings.vehicles;
      AcceptedCount(rows, |rows|, day, known);
      GateMeans(|rows|, |rows| - |ValidCosts(rows, |rows|, day, known)|, inputs.settings.threshold);
      AssembledExactly(at, inputs.files == {}, EventsIn(lib, inputs.files), ValidCosts(rows, |rows|, day, known), inputs.settings, inputs.conflicts);
      EventsFit(lib, inputs.files, at, known);
      ComputeUnfolds(lib, day, inputs);
    } else {
      NothingToCompute(lib, day, inputs);
    }
  }

  lemma NothingToCompute(lib: Library, day: string, inputs: Inputs)
    requires lib.ordinal(day).None? || lib.parse(inputs.expenses).None? || lib.parse(inputs.expenses).value == []
    ensures !Compute(lib, day, inputs).Computed?
    ensures lib.parse(inputs.expenses).Some? && lib.parse(inputs.expenses).value == [] ==>
              !GoodEnough(lib.parse(inputs.expenses).value, day, inputs.settings)
  {
    hide Assemble, ValidCosts, GateFails, EventsIn;
  }

  lemma ComputeUnfolds(lib: Library, day: string, inputs: Inputs)
    requires lib.ordinal(day).Some? && lib.parse(inputs.expenses).Some? && lib.parse(inputs.expenses).value != []
    ensures var rows, known := lib.parse(inputs.expenses).value, inputs.settings.vehicles;
            var valid := ValidCosts(rows, |rows|, day, known);
            && |valid| <= |rows|
            && (Compute(lib, day, inputs).Computed? <==>
                  && !GateFails(|rows|, |rows| - |valid|, inputs.settings.threshold)
                  && Assemble(lib.ordinal(day).value, inputs.files == {}, EventsIn(lib, inputs.files), valid, inputs.settings, inputs.conflicts).Computed?)
            && (GoodEnough(rows, day, inputs.settings) <==>
                  (|rows| - |FlawlessRows(rows, |rows|, day, known)|) as real <= inputs.settings.threshold * |rows| as real)
  {
    hide Assemble, ValidCosts, FlawlessRows, GateFails, EventsIn;
  }

  lemma AssembledExactly(day: int, noPaths: bool, events: set<Event>, costs: seq<Cost>, settings: Settings, conflicts: seq<ConflictRow>)
    ensures Assemble(day, noPaths, events, costs, settings, conflicts).Computed? <==>
              noPaths || forall e :: e in events ==> DayOf(e.ts) == day && e.vehicle in settings.vehicles
  {
    hide Aggregate.JoinAll, Aggregate.BadIds, Aggregate.Clean, Aggregate.ConflictedVehicles, Aggregate.GoodTrips, CostMap, Text.Sort,
      OverrideAll, OverrideCoverage, BlockedEventIds, BlockedTripIds, ConflictedBy, CoverageOf;
  }

  lemma EventsFit(lib: Library, files: set<(Path, Item)>, at: int, known: set<string>)
    ensures FilesFit(lib, files, at, known) <==>
              files == {} || forall e :: e in EventsIn(lib, files) ==> DayOf(e.ts) == at && e.vehicle in known
  {
    forall f, e | f in files && e in lib.decode(f.1.digest) ensures e in EventsIn(lib, files) {}
  }

  /* ---- costs ---- */

  ghost predicate HasFlawlessRow(rows: seq<ExpenseRow>, v: string, i: nat, day: string, known: set<string>) {
    i < |rows| && rows[i].vehicle == v && Flawless(rows, i, day, known)
  }

  /** The costs of the vehicle's flawless row, or none if it has no such row. */
  ghost predicate ShowsCosts(row: ReportRow, rows: seq<ExpenseRow>, day: string, known: set<string>) {
    && (forall i: nat :: HasFlawlessRow(rows, row.vehicle, i, day, known) ==> row.fuel == rows[i].fuel && row.maintenance == rows[i].maintenance)
    && ((forall i: nat :: !HasFlawlessRow(rows, row.vehicle, i, day, known)) ==> row.fuel.None? && row.maintenance.None?)
  }

  lemma {:induction false} CostsAreShown(lib: Library, day: string, inputs: Inputs, row: ReportRow)
    requires Compute(lib, day, inputs).Computed? && row in Compute(lib, day, inputs).report.rows
    ensures ShowsCosts(row, lib.parse(inputs.expenses).value, day, inputs.settings.vehicles)
  {
    var rows, known := lib.parse(inputs.expenses).value, inputs.settings.vehicles;
    var costs := ValidCosts(rows, |rows|, day, known);
    assert Compute(lib, day, inputs) == Assemble(lib.ordinal(day).value, inputs.files == {}, EventsIn(lib, inputs.files), costs, inputs.settings, inputs.conflicts) by {
      hide Assemble, ValidCosts, GateFails, EventsIn;
    }
    hide *;
    ValidCostsAreDistinct(rows, |rows|, day, known);
    AssembledCosts(lib.ordinal(day).value, inputs.files == {}, EventsIn(lib, inputs.files), costs, inputs.settings, inputs.conflicts, row);
    Aggregate.DistinctCostsJoinOnce(costs, row.vehicle);
    MappedCost(costs, row.vehicle);
    forall i: nat | i < |rows| ensures Accepts(rows, i, day, known) <==> Flawless(rows, i, day, known) {
      AcceptsExactly(rows, i, day, known);
    }
    CostsOfRows(rows, costs, row, day, known);
  }

  lemma MappedCost(costs: seq<Cost>, v: string)
    requires DistinctVehicles(costs)
    requires Aggregate.CostRows(costs, v) == if v in CostMap(costs) then [CostMap(costs)[v]] else []
    ensures v in CostMap(costs) ==> CostMap(costs)[v] in costs && CostMap(costs)[v].vehicle == v
  {
    hide CostMap;
    CostRowsAreCosts(costs, v);
    if v in CostMap(costs) {
      assert Aggregate.CostRows(costs, v)[0] == CostMap(costs)[v];
    }
  }

  lemma {:induction false} CostRowsAreCosts(costs: seq<Cost>, v: string)
    ensures forall c :: c in Aggregate.CostRows(costs, v) ==> c in costs && c.vehicle == v
  {
    if costs != [] {
      CostRowsAreCosts(costs[..|costs| - 1], v);
    }
  }

  lemma CostsOfRows(rows: seq<ExpenseRow>, costs: seq<Cost>, row: ReportRow, day: string, known: set<string>)
    requires forall c :: c in costs <==> exists j :: 0 <= j < |rows| && Accepts(rows, j, day, known) && CostOf(rows[j], c)
    requires forall i: nat :: i < |rows| ==> (Accepts(rows, i, day, known) <==> Flawless(rows, i, day, known))
    requires row.vehicle in CostMap(costs) <==> exists c :: c in costs && c.vehicle == row.vehicle
    requires row.vehicle in CostMap(costs) ==> CostMap(costs)[row.vehicle] in costs && CostMap(costs)[row.vehicle].vehicle == row.vehicle
    requires row.fuel == if row.vehicle in CostMap(costs) then Some(CostMap(costs)[row.vehicle].fuel) else None
    requires row.maintenance == if row.vehicle in CostMap(costs) then Some(CostMap(costs)[row.vehicle].maintenance) else None
    ensures ShowsCosts(row, rows, day, known)
  {
    var v := row.vehicle;
    forall i: nat | HasFlawlessRow(rows, v, i, day, known) ensures row.fuel == rows[i].fuel && row.maintenance == rows[i].maintenance {
      var c := Cost(v, rows[i].fuel.value, rows[i].maintenance.value);
      assert CostOf(rows[i], c) && c in costs;
      var stored := CostMap(costs)[v];
      var j :| 0 <= j < |rows| && Accepts(rows, j, day, known) && CostOf(rows[j], stored);
      assert Flawless(rows, i, day, known) && rows[j].vehicle == rows[i].vehicle;
      assert j == i;
    }
    if v in CostMap(costs) {
      var j :| 0 <= j < |rows| && Accepts(rows, j, day, known) && CostOf(rows[j], CostMap(costs)[v]);
      assert HasFlawlessRow(rows, v, j, day, known);
    }
  }

  predicate ShowsMapped(row: ReportRow, costs: map<string, Cost>) {
    && row.fuel == (if row.vehicle in costs then Some(costs[row.vehicle].fuel) else None)
    && row.maintenance == if row.vehicle in costs then Some(costs[row.vehicle].maintenance) else None
  }

  lemma {:induction false} AssembledCosts(
    day: int, noPaths: bool, events: set<Event>, costs: seq<Cost>, settings: Settings, conflicts: seq<ConflictRow>, row: ReportRow)
    requires DistinctVehicles(costs) && Assemble(day, noPaths, events, costs, settings, conflicts).Computed?
    requires row in Assemble(day, noPaths, events, costs, settings, conflicts).report.rows
    ensures ShowsMapped(row, CostMap(costs))
  {
    var ids, trips := BlockedEventIds(conflicts), BlockedTripIds(conflicts);
    var known, vehicles := settings.vehicles, Text.Sort(settings.vehicles);
    var conflicted := Aggregate.ConflictedVehicles(events, ids, trips);
    var coverage := CoverageOf(settings, day, noPaths, Aggregate.Clean(events, Aggregate.BadIds(events, ids)), conflicted);
    var telemetry := map v | v in coverage :: coverage[v].complete;
    hide Aggregate.AggregateEvents, Aggregate.NoPathsReport, CoverageOf, OverrideAll, ShowsMapped, Text.Sort, CostMap,
      Aggregate.BadIds, Aggregate.Clean, Aggregate.ConflictedVehicles, BlockedEventIds, BlockedTripIds, ConflictedBy, OverrideCoverage, DistinctVehicles;
    if noPaths {
      NoPathsCosts(vehicles, costs);
      OverrideKeepsCosts(Aggregate.NoPathsReport(vehicles, costs).rows, CostMap(costs), ConflictedBy(conflicts));
    } else {
      AggregateCosts(events, costs, day, known, ids, trips, telemetry);
      OverrideKeepsCosts(Aggregate.AggregateEvents(events, costs, day, known, ids, trips, telemetry).rows, CostMap(costs), ConflictedBy(conflicts));
    }
  }

  lemma OverrideKeepsCosts(rows: seq<ReportRow>, costs: map<string, Cost>, named: set<string>)
    requires forall r :: r in rows ==> ShowsMapped(r, costs)
    ensures forall r :: r in OverrideAll(rows, named) ==> ShowsMapped(r, costs)
  {
    forall r | r in OverrideAll(rows, named) ensures ShowsMapped(r, costs) {
      var i :| 0 <= i < |rows| && r == Overridden(rows[i], named);
      assert ShowsMapped(rows[i], costs);
    }
  }

  lemma NoPathsCosts(vehicles: seq<string>, costs: seq<Cost>)
    ensures var outcome := Aggregate.NoPathsReport(vehicles, costs); outcome.Report? && forall r :: r in outcome.rows ==> ShowsMapped(r, CostMap(costs))
  {
    hide CostMap;
  }

  lemma AggregateCosts(
    events: set<Event>, costs: seq<Cost>, day: int, known: set<string>, ids: set<string>, trips: set<string>, telemetry: map<string, bool>)
    requires DistinctVehicles(costs) && Aggregate.AggregateEvents(events, costs, day, known, ids, trips, telemetry).Report?
    ensures forall r :: r in Aggregate.AggregateEvents(events, costs, day, known, ids, trips, telemetry).rows ==> ShowsMapped(r, CostMap(costs))
  {
    hide Aggregate.GoodTrips, Aggregate.ConflictedVehicles, Aggregate.JoinAll, Text.Sort, DistinctVehicles, CostMap, Aggregate.RowOf, Aggregate.Total, ShowsMapped;
    var vehicles, good, conflicted := Text.Sort(known), Aggregate.GoodTrips(events, ids, trips), Aggregate.ConflictedVehicles(events, ids, trips);
    Aggregate.JoinIsOneRowEach(vehicles, good, costs, conflicted, telemetry);
    forall v ensures ShowsMapped(Aggregate.RowOf(v, good, CostMap(costs), conflicted, telemetry), CostMap(costs)) {
      JoinedCosts(v, good, CostMap(costs), conflicted, telemetry);
    }
  }

  lemma JoinedCosts(v: string, good: Aggregate.Trips, costs: map<string, Cost>, conflicted: set<string>, telemetry: map<string, bool>)
    ensures ShowsMapped(Aggregate.RowOf(v, good, costs, conflicted, telemetry), costs)
  {
    hide Aggregate.Total;
  }

  /* ---- conflicts ---- */

  /** A conflict row carries the trip, or two clean completions of it differ in vehicle, fare, time or zone. */
  ghost predicate DisputedTrip(events: set<Event>, conflicts: seq<ConflictRow>, trip: string) {
    || (trip != "" && exists c :: c in conflicts && c.trip == Some(trip))
    || (exists a, b :: a in CleanEvents(events, conflicts) && b in CleanEvents(events, conflicts) && a.completed && b.completed
                       && a.trip == Some(trip) && b.trip == Some(trip)
                       && (a.vehicle != b.vehicle || a.fare != b.fare || a.ts != b.ts || a.zone != b.zone))
  }

  /** An event of the vehicle is not clean, or is a clean completion of a disputed trip. */
  ghost predicate HasConflict(events: set<Event>, conflicts: seq<ConflictRow>, v: string) {
    || (exists e :: e in events && e.vehicle == v && e !in CleanEvents(events, conflicts))
    || (exists e :: e in CleanEvents(events, conflicts) && e.vehicle == v && e.completed && e.trip.Some? && DisputedTrip(events, conflicts, e.trip.value))
  }

  lemma {:induction false} DisputedMeans(events: set<Event>, conflicts: seq<ConflictRow>, trip: string)
    ensures trip in Aggregate.BadTripsOf(CleanEvents(events, conflicts), BlockedTripIds(conflicts)) <==> DisputedTrip(events, conflicts, trip)
  {
    hide CleanEvents;
    var clean := CleanEvents(events, conflicts);
    if a, b :| a in clean && b in clean && a.completed && b.completed && a.trip == Some(trip) && b.trip == Some(trip)
               && (a.vehicle != b.vehicle || a.fare != b.fare || a.ts != b.ts || a.zone != b.zone) {
      assert a.trip.value == trip && SignatureOf(a) != SignatureOf(b);
    }
  }

  lemma {:induction false} ConflictedMeans(events: set<Event>, conflicts: seq<ConflictRow>, v: string)
    ensures v in Aggregate.ConflictedVehicles(events, BlockedEventIds(conflicts), BlockedTripIds(conflicts)) <==> HasConflict(events, conflicts, v)
  {
    var bad := Aggregate.BadIds(events, BlockedEventIds(conflicts));
    CleanMeans(events, conflicts);
    forall e | e in events ensures e.id in bad <==> e !in CleanEvents(events, conflicts) {
      assert e.id in bad <==> e !in Aggregate.Clean(events, bad);
    }
    hide CleanEvents, Aggregate.Clean, Aggregate.BadIds, BlockedEventIds, BlockedTripIds, DisputedTrip, Aggregate.BadTripsOf;
    forall trip ensures trip in Aggregate.BadTripsOf(CleanEvents(events, conflicts), BlockedTripIds(conflicts)) <==> DisputedTrip(events, conflicts, trip) {
      DisputedMeans(events, conflicts, trip);
    }
  }

  /** A vehicle is withheld in a computed report exactly if a conflict row names it or one of its events of the day conflicts. */
  lemma {:induction false} WithheldExactly(
    day: int, noPaths: bool, events: set<Event>, costs: seq<Cost>, settings: Settings, conflicts: seq<ConflictRow>, row: ReportRow)
    requires DistinctVehicles(costs) && (noPaths ==> events == {})
    requires Assemble(day, noPaths, events, costs, settings, conflicts).Computed?
    requires row in Assemble(day, noPaths, events, costs, settings, conflicts).report.rows
    ensures row.status == ConflictingEvents <==> (exists c :: c in conflicts && c.vehicle == Some(row.vehicle)) || HasConflict(events, conflicts, row.vehicle)
  {
    var ids, trips := BlockedEventIds(conflicts), BlockedTripIds(conflicts);
    var clean, conflicted := Aggregate.Clean(events, Aggregate.BadIds(events, ids)), Aggregate.ConflictedVehicles(events, ids, trips);
    hide *;
    AssembledRowsAreHonest(day, noPaths, events, costs, settings, conflicts);
    AssembledRows(day, noPaths, events, costs, settings, conflicts);
    AssembledCoverage(day, noPaths, events, costs, settings, conflicts, row.vehicle);
    CoverageIsTotal(settings, day, noPaths, clean, conflicted);
    ConflictedMeans(events, conflicts, row.vehicle);
    NothingConflicts(events, conflicts, row.vehicle);
    NamedVehicles(conflicts, row.vehicle);
    var r := Assemble(day, noPaths, events, costs, settings, conflicts).report;
    HonestFlag(row, r.coverage, ConflictedBy(conflicts));
    KnownRow(r.rows, Text.Sort(settings.vehicles), row);
  }

  lemma KnownRow(rows: seq<ReportRow>, vehicles: seq<string>, row: ReportRow)
    requires |rows| == |vehicles| && (forall i :: 0 <= i < |rows| ==> rows[i].vehicle == vehicles[i]) && row in rows
    ensures row.vehicle in vehicles
  {}

  lemma HonestFlag(row: ReportRow, coverage: map<string, Verdict>, named: set<string>)
    requires RowIsHonest(row, coverage, named)
    ensures row.vehicle in coverage && (row.status == ConflictingEvents <==> coverage[row.vehicle].conflict)
    ensures row.vehicle in named ==> coverage[row.vehicle].conflict
  {}

  lemma NamedVehicles(conflicts: seq<ConflictRow>, v: string)
    ensures v in ConflictedBy(conflicts) <==> exists c :: c in conflicts && c.vehicle == Some(v)
  {
    if c :| c in conflicts && c.vehicle == Some(v) {
      assert c.vehicle.value == v;
    }
  }

  lemma NothingConflicts(events: set<Event>, conflicts: seq<ConflictRow>, v: string)
    ensures events == {} ==> !HasConflict(events, conflicts, v)
  {}
}
