/** Trips and revenue of a report: the vehicle rows and the zone rows add up to the same. */
module Conservation {
  import Aggregate
  import Sums
  import Text
  import opened DayInputs
  import opened Events
  import opened Expenses
  import opened Reconcile

  function SumTrips(rows: seq<ReportRow>): nat {
    if rows == [] then 0 else rows[0].trips + SumTrips(rows[1..])
  }

  function SumRevenue(rows: seq<ReportRow>): nat {
    if rows == [] then 0 else rows[0].revenue + SumRevenue(rows[1..])
  }

  function ZoneTrips(zones: map<string, (nat, nat)>): nat {
    Sums.Sum(map z | z in zones :: zones[z].0, zones.Keys)
  }

  function ZoneRevenue(zones: map<string, (nat, nat)>): nat {
    Sums.Sum(map z | z in zones :: zones[z].1, zones.Keys)
  }

  /** Rows in vehicle order add up to the sum over the vehicles. */
  lemma {:induction false} SumOverSorted(rows: seq<ReportRow>, keys: set<string>, trips: map<string, nat>, revenue: map<string, nat>)
    requires keys <= trips.Keys && keys <= revenue.Keys && |rows| == |Text.Sort(keys)|
    requires forall i :: 0 <= i < |rows| ==>
               Text.Sort(keys)[i] in keys && rows[i].trips == trips[Text.Sort(keys)[i]] && rows[i].revenue == revenue[Text.Sort(keys)[i]]
    ensures SumTrips(rows) == Sums.Sum(trips, keys) && SumRevenue(rows) == Sums.Sum(revenue, keys)
    decreases keys
  {
    if keys != {} {
      var least := Text.LeastOf(keys);
      var rest := Text.Sort(keys - {least});
      assert Text.Sort(keys) == [least] + rest;
      forall i | 0 <= i < |rest|
        ensures rest[i] in keys - {least} && rows[1..][i].trips == trips[rest[i]] && rows[1..][i].revenue == revenue[rest[i]]
      {
        assert rest[i] in rest;
        assert rows[1..][i] == rows[i + 1] && Text.Sort(keys)[i + 1] == rest[i];
      }
      SumOverSorted(rows[1..], keys - {least}, trips, revenue);
    }
  }

  lemma {:induction false} OverrideKeepsSums(rows: seq<ReportRow>, vehicles: set<string>)
    ensures SumTrips(OverrideAll(rows, vehicles)) == SumTrips(rows) && SumRevenue(OverrideAll(rows, vehicles)) == SumRevenue(rows)
    decreases |rows|
  {
    if rows != [] {
      OverrideKeepsSums(rows[1..], vehicles);
      assert OverrideAll(rows, vehicles)[1..] == OverrideAll(rows[1..], vehicles);
    }
  }

  /** For every day that the aggregation reports: trips and revenue over its vehicle rows equal those over its zone rows, and
      both are all trips that count. */
  lemma {:induction false} AggregationConserves(
    events: set<Event>, costs: seq<Cost>, day: int, known: set<string>, ids: set<string>, trips: set<string>, telemetry: map<string, bool>)
    requires DistinctVehicles(costs) && Aggregate.AggregateEvents(events, costs, day, known, ids, trips, telemetry).Report?
    ensures var r, good := Aggregate.AggregateEvents(events, costs, day, known, ids, trips, telemetry), Aggregate.GoodTrips(events, ids, trips);
            && SumTrips(r.rows) == ZoneTrips(r.zones) == |good|
            && SumRevenue(r.rows) == ZoneRevenue(r.zones) == Sums.Sum(Aggregate.FareOf(good), good.Keys)
  {
    var good := Aggregate.GoodTrips(events, ids, trips);
    var conflicted := Aggregate.ConflictedVehicles(events, ids, trips);
    ReportedDay(events, costs, day, known, ids, trips, telemetry);
    GoodTripsAreKnown(events, known, ids, trips);
    hide *;
    var r := Aggregate.AggregateEvents(events, costs, day, known, ids, trips, telemetry);
    RowsConserve(r.rows, good, costs, known, conflicted, telemetry);
    ZonesConserve(r.zones, good);
  }

  lemma ReportedDay(
    events: set<Event>, costs: seq<Cost>, day: int, known: set<string>, ids: set<string>, trips: set<string>, telemetry: map<string, bool>)
    requires Aggregate.AggregateEvents(events, costs, day, known, ids, trips, telemetry).Report?
    ensures var r, good := Aggregate.AggregateEvents(events, costs, day, known, ids, trips, telemetry), Aggregate.GoodTrips(events, ids, trips);
            && r.rows == Aggregate.JoinAll(Text.Sort(known), good, costs, Aggregate.ConflictedVehicles(events, ids, trips), telemetry)
            && r.zones == ZoneRows(good)
            && forall e :: e in events ==> e.vehicle in known
  {
    hide Aggregate.GoodTrips, Aggregate.ConflictedVehicles, Aggregate.Total, Text.Sort, Aggregate.JoinAll;
  }

  function ZoneRows(good: Aggregate.Trips): map<string, (nat, nat)> {
    map t | t in good :: good[t].zone := Aggregate.Total(good, Aggregate.Zone, good[t].zone)
  }

  lemma GoodTripsAreKnown(events: set<Event>, known: set<string>, ids: set<string>, trips: set<string>)
    requires forall e :: e in events ==> e.vehicle in known
    ensures forall t :: t in Aggregate.GoodTrips(events, ids, trips) ==> Aggregate.GoodTrips(events, ids, trips)[t].vehicle in known
  {}

  lemma {:induction false} RowsConserve(
    rows: seq<ReportRow>, good: Aggregate.Trips, costs: seq<Cost>, known: set<string>, conflicted: set<string>, telemetry: map<string, bool>)
    requires DistinctVehicles(costs) && rows == Aggregate.JoinAll(Text.Sort(known), good, costs, conflicted, telemetry)
    requires forall t :: t in good ==> good[t].vehicle in known
    ensures SumTrips(rows) == |good| && SumRevenue(rows) == Sums.Sum(Aggregate.FareOf(good), good.Keys)
  {
    hide Aggregate.Total, Text.Sort, Aggregate.JoinAll, Sums.Sum, CostMap, DistinctVehicles, SumTrips, SumRevenue;
    var vehicles := Text.Sort(known);
    Aggregate.JoinIsOneRowEach(vehicles, good, costs, conflicted, telemetry);
    forall i | 0 <= i < |rows|
      ensures vehicles[i] in known && rows[i].trips == Aggregate.TripTotals(good, Aggregate.Vehicle, known)[vehicles[i]]
              && rows[i].revenue == Aggregate.RevenueTotals(good, Aggregate.Vehicle, known)[vehicles[i]]
    {
      assert vehicles[i] in vehicles;
    }
    SumOverSorted(rows, known, Aggregate.TripTotals(good, Aggregate.Vehicle, known), Aggregate.RevenueTotals(good, Aggregate.Vehicle, known));
    Aggregate.TotalsAreConserved(good, Aggregate.Vehicle, known);
  }

  lemma {:induction false} ZonesConserve(zones: map<string, (nat, nat)>, good: Aggregate.Trips)
    requires zones == ZoneRows(good)
    ensures ZoneTrips(zones) == |good| && ZoneRevenue(zones) == Sums.Sum(Aggregate.FareOf(good), good.Keys)
  {
    ZoneRowsAreTotals(good);
    hide *;
    Aggregate.TotalsAreConserved(good, Aggregate.Zone, zones.Keys);
    ZoneSumsAre(zones, Aggregate.TripTotals(good, Aggregate.Zone, zones.Keys), Aggregate.RevenueTotals(good, Aggregate.Zone, zones.Keys));
  }

  lemma ZoneRowsAreTotals(good: Aggregate.Trips)
    ensures var zones := ZoneRows(good);
            && (forall t :: t in good ==> Aggregate.KeyOf(Aggregate.Zone, good[t]) in zones)
            && Aggregate.TripTotals(good, Aggregate.Zone, zones.Keys).Keys == zones.Keys
            && Aggregate.RevenueTotals(good, Aggregate.Zone, zones.Keys).Keys == zones.Keys
            && forall z :: z in zones ==>
                 zones[z] == (Aggregate.TripTotals(good, Aggregate.Zone, zones.Keys)[z], Aggregate.RevenueTotals(good, Aggregate.Zone, zones.Keys)[z])
  {
    hide Aggregate.Total;
  }

  lemma ZoneSumsAre(zones: map<string, (nat, nat)>, trips: map<string, nat>, revenue: map<string, nat>)
    requires trips.Keys == revenue.Keys == zones.Keys && forall z :: z in zones ==> zones[z] == (trips[z], revenue[z])
    ensures ZoneTrips(zones) == Sums.Sum(trips, zones.Keys) && ZoneRevenue(zones) == Sums.Sum(revenue, zones.Keys)
  {
    hide Sums.Sum;
    assert (map z | z in zones :: zones[z].0) == trips;
    assert (map z | z in zones :: zones[z].1) == revenue;
  }

  lemma {:induction false} NoPathsConserve(vehicles: seq<string>, costs: seq<Cost>)
    ensures var r := Aggregate.NoPathsReport(vehicles, costs);
            SumTrips(r.rows) == SumRevenue(r.rows) == ZoneTrips(r.zones) == ZoneRevenue(r.zones) == 0
  {
    ZerosAddUp(Aggregate.NoPathsReport(vehicles, costs).rows);
  }

  lemma {:induction false} ZerosAddUp(rows: seq<ReportRow>)
    requires forall r :: r in rows ==> r.trips == 0 && r.revenue == 0
    ensures SumTrips(rows) == 0 && SumRevenue(rows) == 0
    decreases |rows|
  {
    if rows != [] {
      ZerosAddUp(rows[1..]);
    }
  }

  /** In every report that a daily run computes, after the override by the conflict ledger, summed vehicle trips and revenue
      equal summed zone trips and revenue. */
  lemma {:induction false} ReportConservesTotals(lib: Library, day: string, inputs: Inputs)
    requires Compute(lib, day, inputs).Computed?
    ensures var r := Compute(lib, day, inputs).report;
            SumTrips(r.rows) == ZoneTrips(r.zones) && SumRevenue(r.rows) == ZoneRevenue(r.zones)
  {
    var rows := lib.parse(inputs.expenses).value;
    ValidCostsAreDistinct(rows, |rows|, day, inputs.settings.vehicles);
    hide Assemble, ValidCosts, DistinctVehicles;
    AssembledConserves(lib.ordinal(day).value, inputs.files == {}, EventsIn(lib, inputs.files),
                       ValidCosts(rows, |rows|, day, inputs.settings.vehicles), inputs.settings, inputs.conflicts);
  }

  lemma {:induction false} AssembledConserves(
    day: int, noPaths: bool, events: set<Event>, costs: seq<Cost>, settings: Settings, conflicts: seq<ConflictRow>)
    requires DistinctVehicles(costs) && Assemble(day, noPaths, events, costs, settings, conflicts).Computed?
    ensures var r := Assemble(day, noPaths, events, costs, settings, conflicts).report;
            SumTrips(r.rows) == ZoneTrips(r.zones) && SumRevenue(r.rows) == ZoneRevenue(r.zones)
  {
    var ids, trips, named := BlockedEventIds(conflicts), BlockedTripIds(conflicts), ConflictedBy(conflicts);
    var conflicted := Aggregate.ConflictedVehicles(events, ids, trips);
    var coverage := CoverageOf(settings, day, noPaths, Aggregate.Clean(events, Aggregate.BadIds(events, ids)), conflicted);
    var telemetry := map v | v in coverage :: coverage[v].complete;
    hide Aggregate.AggregateEvents, Aggregate.NoPathsReport, CoverageOf, OverrideAll, SumTrips, SumRevenue, ZoneTrips, ZoneRevenue,
      DistinctVehicles, Aggregate.BadIds, Aggregate.Clean, Aggregate.ConflictedVehicles, BlockedEventIds, BlockedTripIds, ConflictedBy, Text.Sort, OverrideCoverage;
    if noPaths {
      NoPathsConserve(Text.Sort(settings.vehicles), costs);
      assert Aggregate.NoPathsReport(Text.Sort(settings.vehicles), costs).Report?;
      OverrideKeepsSums(Aggregate.NoPathsReport(Text.Sort(settings.vehicles), costs).rows, named);
    } else {
      AggregationConserves(events, costs, day, settings.vehicles, ids, trips, telemetry);
      OverrideKeepsSums(Aggregate.AggregateEvents(events, costs, day, settings.vehicles, ids, trips, telemetry).rows, named);
    }
  }
}
