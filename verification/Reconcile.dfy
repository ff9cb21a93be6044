/** The reference reconciliation: trips counted once, conflicts rejected instead of guessed. */
module Reconcile {
  import Text
  import Sums
  import opened Events
  import opened Expenses

  datatype RowStatus = Complete | MissingExpenses | IncompleteTelemetry | ConflictingEvents

  datatype ReportRow = ReportRow(
    vehicle: string, trips: nat, revenue: nat, fuel: Option<nat>, maintenance: Option<nat>,
    profit: Option<int>, unprofitable: Option<bool>, status: RowStatus)

  /** What `reconcile` compares between completions of one trip: the zone is not part of it. */
  datatype Completion = Completion(vehicle: string, fare: nat, ts: int)

  type Completions = map<string, Completion>

  function CompletionOf(e: Event): Completion {
    Completion(e.vehicle, e.fare, e.ts)
  }

  /** A completion that is assigned to the day. */
  predicate CompletedOn(e: Event, day: int) {
    e.completed && e.trip.Some? && DayOf(e.ts) == day
  }

  ghost predicate Conflicting(events: set<Event>, day: int) {
    exists a, b :: a in events && b in events && CompletedOn(a, day) && CompletedOn(b, day)
                   && a.trip == b.trip && CompletionOf(a) != CompletionOf(b)
  }

  function TripsOn(events: set<Event>, day: int): Completions
    requires !Conflicting(events, day)
  {
    map e | e in events && CompletedOn(e, day) :: e.trip.value := CompletionOf(e)
  }

  function TripsOfVehicle(trips: Completions, vehicle: string): set<string> {
    set t | t in trips && trips[t].vehicle == vehicle
  }

  function Fares(trips: Completions): map<string, nat> {
    map t | t in trips :: trips[t].fare
  }

  function RevenueOf(trips: Completions, vehicle: string): nat {
    Sums.Sum(Fares(trips), TripsOfVehicle(trips, vehicle))
  }

  function VehiclesOf(trips: Completions): set<string> {
    set t | t in trips :: trips[t].vehicle
  }

  /** `{row["vehicle_id"]: row for row in expenses}` */
  function CostMap(costs: seq<Cost>): map<string, Cost> {
    if costs == [] then map[] else CostMap(costs[..|costs| - 1])[costs[|costs| - 1].vehicle := costs[|costs| - 1]]
  }

  function RowFor(trips: Completions, costs: map<string, Cost>, vehicle: string): ReportRow {
    var count, revenue := |TripsOfVehicle(trips, vehicle)|, RevenueOf(trips, vehicle);
    if vehicle in costs then
      var c := costs[vehicle];
      var profit := revenue - c.fuel - c.maintenance;
      ReportRow(vehicle, count, revenue, Some(c.fuel), Some(c.maintenance), Some(profit), Some(profit < 0), Complete)
    else
      ReportRow(vehicle, count, revenue, None, None, None, None, MissingExpenses)
  }

  /** The report over all vehicles with trips or costs, in vehicle order. */
  function Report(trips: Completions, costs: map<string, Cost>): seq<ReportRow> {
    var vehicles := Text.Sort(VehiclesOf(trips) + costs.Keys);
    seq(|vehicles|, i requires 0 <= i < |vehicles| => RowFor(trips, costs, vehicles[i]))
  }

  type Totals = map<string, (nat, nat)>

  ghost predicate TotalsMatch(totals: Totals, trips: Completions) {
    && totals.Keys == VehiclesOf(trips)
    && forall v :: v in totals ==> totals[v] == (|TripsOfVehicle(trips, v)|, RevenueOf(trips, v))
  }

  function TotalOf(totals: Totals, vehicle: string): (nat, nat) {
    if vehicle in totals then totals[vehicle] else (0, 0)
  }

  /** A new trip adds one to its vehicle's count and its fare to the revenue, and touches no other vehicle. */
  lemma {:induction false} NewTripAdds(trips: Completions, trip: string, c: Completion, v: string)
    requires trip !in trips
    ensures var after := trips[trip := c];
            && |TripsOfVehicle(after, v)| == |TripsOfVehicle(trips, v)| + (if c.vehicle == v then 1 else 0)
            && RevenueOf(after, v) == RevenueOf(trips, v) + (if c.vehicle == v then c.fare else 0)
  {
    hide Sums.Sum, TripsOfVehicle, Sums.Group;
    var after := trips[trip := c];
    TripsOfVehicleIsGroup(trips, v);
    TripsOfVehicleIsGroup(after, v);
    assert VehicleByTrip(trips).Keys == trips.Keys && VehicleByTrip(after).Keys == after.Keys;
    assert VehicleByTrip(after) == VehicleByTrip(trips)[trip := c.vehicle] && Fares(after) == Fares(trips)[trip := c.fare];
    Sums.NewItemJoins(Fares(trips), VehicleByTrip(trips), trip, c.fare, c.vehicle, v);
  }

  function VehicleByTrip(trips: Completions): map<string, string> {
    map t | t in trips :: trips[t].vehicle
  }

  lemma TripsOfVehicleIsGroup(trips: Completions, v: string)
    ensures TripsOfVehicle(trips, v) == Sums.Group(VehicleByTrip(trips), trips.Keys, v)
  {}

  lemma NoTripsNoRevenue(trips: Completions, v: string)
    requires v !in VehiclesOf(trips)
    ensures |TripsOfVehicle(trips, v)| == 0 && RevenueOf(trips, v) == 0
  {
    assert TripsOfVehicle(trips, v) == {};
  }

  method AddTrip(totals: Totals, trips: Completions, trip: string, c: Completion) returns (after: Totals)
    requires trip !in trips && TotalsMatch(totals, trips)
    ensures TotalsMatch(after, trips[trip := c])
  {
    var count, revenue := TotalOf(totals, c.vehicle).0, TotalOf(totals, c.vehicle).1;
    after := totals[c.vehicle := (count + 1, revenue + c.fare)];
    if c.vehicle !in totals {
      NoTripsNoRevenue(trips, c.vehicle);
    }
    forall v | v in after
      ensures after[v] == (|TripsOfVehicle(trips[trip := c], v)|, RevenueOf(trips[trip := c], v))
    {
      NewTripAdds(trips, trip, c, v);
    }
    assert VehiclesOf(trips[trip := c]) == VehiclesOf(trips) + {c.vehicle} by {
      assert forall t :: t in trips[trip := c] <==> t == trip || t in trips;
    }
  }

  /** Scan the events once; stop at the first completion that contradicts an earlier one. */
  method Reconcile(events: seq<Event>, expenses: seq<Cost>, day: int) returns (output: Option<seq<ReportRow>>)
    ensures output.None? <==> Conflicting(EventSet(events), day)
    ensures output.Some? ==> output.value == Report(TripsOn(EventSet(events), day), CostMap(expenses))
  {
    var trips: Completions, totals: Totals := map[], map[];
    for i := 0 to |events|
      invariant !Conflicting(EventSet(events[..i]), day)
      invariant trips == TripsOn(EventSet(events[..i]), day)
      invariant TotalsMatch(totals, trips)
    {
      assert EventSet(events[..i + 1]) == EventSet(events[..i]) + {events[i]};
      if CompletedOn(events[i], day) {
        var trip, key := CompletionOf(events[i]), events[i].trip.value;
        if key in trips && trips[key] != trip {
          ClashIsConflict(EventSet(events[..i]), events[i], EventSet(events), day);
          return None;
        }
        NextCompletion(EventSet(events[..i]), events[i], day);
        if key !in trips {
          totals := AddTrip(totals, trips, key, trip);
          trips := trips[key := trip];
        }
      } else {
        OtherEvent(EventSet(events[..i]), events[i], day);
      }
    }
    assert events[..|events|] == events;
    var rows := BuildRows(trips, totals, CostMap(expenses));
    return Some(rows);
  }

  lemma ClashIsConflict(before: set<Event>, e: Event, all: set<Event>, day: int)
    requires !Conflicting(before, day) && before <= all && e in all && CompletedOn(e, day)
    requires e.trip.value in TripsOn(before, day) && TripsOn(before, day)[e.trip.value] != CompletionOf(e)
    ensures Conflicting(all, day)
  {
    var a :| a in before && CompletedOn(a, day) && a.trip.value == e.trip.value;
    assert TripsOn(before, day)[e.trip.value] == CompletionOf(a);
    assert a in all;
  }

  lemma NextCompletion(before: set<Event>, e: Event, day: int)
    requires !Conflicting(before, day) && CompletedOn(e, day)
    requires e.trip.value in TripsOn(before, day) ==> TripsOn(before, day)[e.trip.value] == CompletionOf(e)
    ensures !Conflicting(before + {e}, day)
    ensures TripsOn(before + {e}, day) == TripsOn(before, day)[e.trip.value := CompletionOf(e)]
  {
    forall a | a in before && CompletedOn(a, day) && a.trip == e.trip ensures CompletionOf(a) == CompletionOf(e) {
      assert a.trip.value in TripsOn(before, day);
    }
  }

  lemma OtherEvent(before: set<Event>, e: Event, day: int)
    requires !Conflicting(before, day) && !CompletedOn(e, day)
    ensures !Conflicting(before + {e}, day) && TripsOn(before + {e}, day) == TripsOn(before, day)
  {}

  method BuildRows(trips: Completions, totals: Totals, costs: map<string, Cost>) returns (output: seq<ReportRow>)
    requires TotalsMatch(totals, trips)
    ensures output == Report(trips, costs)
  {
    hide Sums.Sum, Text.Sort, TripsOfVehicle, RevenueOf, VehiclesOf;
    var vehicles := Text.Sort(totals.Keys + costs.Keys);
    output := [];
    for i := 0 to |vehicles|
      invariant |output| == i
      invariant forall j :: 0 <= j < i ==> output[j] == RowFor(trips, costs, vehicles[j])
    {
      var vehicle := vehicles[i];
      var count, revenue := TotalOf(totals, vehicle).0, TotalOf(totals, vehicle).1;
      if vehicle !in totals {
        NoTripsNoRevenue(trips, vehicle);
      }
      var row: ReportRow;
      if vehicle in costs {
        var cost := costs[vehicle];
        var profit := revenue - cost.fuel - cost.maintenance;
        row := ReportRow(vehicle, count, revenue, Some(cost.fuel), Some(cost.maintenance), Some(profit), Some(profit < 0), Complete);
      } else {
        row := ReportRow(vehicle, count, revenue, None, None, None, None, MissingExpenses);
      }
      output := output + [row];
    }
    assert output == Report(trips, costs);
  }

  /** With distinct vehicles the order of the cost rows does not matter either. */
  lemma {:induction false} CostMapMembers(costs: seq<Cost>)
    requires DistinctVehicles(costs)
    ensures forall v :: v in CostMap(costs) ==> CostMap(costs)[v] in costs && CostMap(costs)[v].vehicle == v
    ensures forall c :: c in costs ==> c.vehicle in CostMap(costs) && CostMap(costs)[c.vehicle] == c
  {
    if costs != [] {
      var most, last := costs[..|costs| - 1], costs[|costs| - 1];
      assert costs == most + [last];
      CostMapMembers(most);
      forall i | 0 <= i < |most| ensures most[i].vehicle != last.vehicle {
        assert most[i] == costs[i];
      }
    }
  }

  lemma {:induction false} CostMapIgnoresOrder(costs: seq<Cost>, others: seq<Cost>)
    requires DistinctVehicles(costs) && DistinctVehicles(others) && forall c :: c in costs <==> c in others
    ensures CostMap(costs) == CostMap(others)
  {
    CostMapMembers(costs);
    CostMapMembers(others);
    hide CostMap, DistinctVehicles;
    forall v ensures v in CostMap(costs) <==> v in CostMap(others) {
      if v in CostMap(costs) { assert CostMap(costs)[v] in others; }
      if v in CostMap(others) { assert CostMap(others)[v] in costs; }
    }
    forall v | v in CostMap(costs) ensures CostMap(costs)[v] == CostMap(others)[v] {
      assert CostMap(costs)[v] in others;
    }
  }

  /** The same events and accepted costs, in whatever order and with whatever repetitions of events, fail both times or give
      the same rows. */
  lemma {:induction false} ReconcileIgnoresOrder(a: seq<Event>, b: seq<Event>, costs: seq<Cost>, others: seq<Cost>, day: int)
    requires forall e :: e in a <==> e in b
    requires DistinctVehicles(costs) && DistinctVehicles(others) && forall c :: c in costs <==> c in others
    ensures Conflicting(EventSet(a), day) <==> Conflicting(EventSet(b), day)
    ensures !Conflicting(EventSet(a), day) ==>
              Report(TripsOn(EventSet(a), day), CostMap(costs)) == Report(TripsOn(EventSet(b), day), CostMap(others))
  {
    assert EventSet(a) == EventSet(b);
    CostMapIgnoresOrder(costs, others);
    hide Conflicting, TripsOn, Report, CostMap, DistinctVehicles, EventSet;
  }
}
