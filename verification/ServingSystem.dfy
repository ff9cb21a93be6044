/** All serving tables together, and what holds of vehicles, alerts and windows after every run. */
module ServingSystem {
  import Text
  import opened Events
  import opened Reference
  import opened Ledgers
  import opened LedgerProof
  import opened MergeProof
  import opened BulkLedgers
  import opened ServingRuns
  import opened VehicleState
  import opened VehicleTable
  import opened Windows

  datatype System = System(tables: Tables, windows: WindowTable, vehicles: Vehicles, alerts: Alerts)

  const START := System(EMPTY, map[], map[], map[])

  /** `sorted(accepted, key=(event_ts, event_id))` */
  function SortEvents(events: set<Event>): (r: seq<Event>)
    requires OnePerId(events)
    ensures EventSet(r) == events && Sorted(r)
    decreases events
  {
    if events == {} then [] else
      var first := Earliest(events);
      var rest := SortEvents(events - {first});
      PrependSorts(first, rest, events);
      [first] + rest
  }

  lemma PrependSorts(first: Event, rest: seq<Event>, events: set<Event>)
    requires first in events && EventSet(rest) == events - {first} && Sorted(rest)
    requires forall e :: e in events && e != first ==> Before(first, e)
    ensures EventSet([first] + rest) == events && Sorted([first] + rest)
  {
    forall e | e in rest ensures Before(first, e) {
      assert e in EventSet(rest);
    }
    forall e ensures e in [first] + rest <==> e in events {
      assert e in rest <==> e in EventSet(rest);
    }
  }

  /** The set-based merge, given what it blocks. */
  function MergeBlocking(s: System, rows: Topic, batchId: int, minutes: nat, ids: set<string>, trips: set<string>): System
    requires OnePerId(Accepted(s.tables.keys, rows.Values, ids, trips)) && CompletionsAgree(Accepted(s.tables.keys, rows.Values, ids, trips))
  {
    var accepted := Accepted(s.tables.keys, rows.Values, ids, trips);
    var after := After(s.tables, rows.Values, ids, trips, RecordConflicts(s.tables, rows, batchId, ids, trips), batchId);
    var kept := WithoutDiscredited(s.vehicles, s.tables.keys, ids, trips);
    var candidates := Candidates(kept, accepted);
    System(after,
           Correct(s.windows, Affected(s.tables.contributions, rows.Values, ids, trips), after.contributions),
           UpsertCandidates(kept, candidates),
           UpdateAlerts(s.alerts, candidates, MaxTs(accepted), minutes))
  }

  function MergeSystem(s: System, rows: Topic, batchId: int, minutes: nat): System {
    AcceptedIsCoherent(s.tables, rows.Values);
    MergeBlocking(s, rows, batchId, minutes, ConflictIds(s.tables, rows.Values), BadTrips(s.tables, rows.Values))
  }

  /** The row-by-row form, given what it blocks. */
  function BulkBlocking(s: System, events: seq<Event>, batchId: int, minutes: nat, ids: set<string>, trips: set<string>): System
    requires OnePerId(Accepted(s.tables.keys, EventSet(events), ids, trips))
    requires CompletionsAgree(Accepted(s.tables.keys, EventSet(events), ids, trips))
  {
    var batch := EventSet(events);
    var accepted := Accepted(s.tables.keys, batch, ids, trips);
    var after := After(s.tables, batch, ids, trips, Rejected(s.tables, events, batchId, ids, trips) + s.tables.conflicts, batchId);
    var vehicles := FoldVehicles(WithoutDiscredited(s.vehicles, s.tables.keys, ids, trips), SortEvents(accepted));
    System(after,
           Correct(s.windows, Affected(s.tables.contributions, batch, ids, trips), after.contributions),
           vehicles,
           UpdateBulkAlerts(s.alerts, vehicles, VehiclesOf(accepted), MaxTs(accepted), minutes))
  }

  /** The tables after a row-by-row batch, one by one. */
  lemma BulkBlockingMeans(s: System, events: seq<Event>, batchId: int, minutes: nat, ids: set<string>, trips: set<string>)
    requires OnePerId(Accepted(s.tables.keys, EventSet(events), ids, trips))
    requires CompletionsAgree(Accepted(s.tables.keys, EventSet(events), ids, trips))
    ensures var t, batch, after := s.tables, EventSet(events), BulkBlocking(s, events, batchId, minutes, ids, trips);
            var accepted := Accepted(t.keys, batch, ids, trips);
            && after.tables == Tables(NewKeys(accepted, batchId) + t.keys,
                                      Rejected(t, events, batchId, ids, trips) + t.conflicts,
                                      NewTrips(accepted) + WithoutTrips(t.trips, trips),
                                      NewContributions(accepted) + WithoutEvents(t.contributions, ids, trips))
            && after.windows == Correct(s.windows, Affected(t.contributions, batch, ids, trips), after.tables.contributions)
            && after.vehicles == FoldVehicles(WithoutDiscredited(s.vehicles, t.keys, ids, trips), SortEvents(accepted))
            && after.alerts == UpdateBulkAlerts(s.alerts, after.vehicles, VehiclesOf(accepted), MaxTs(accepted), minutes)
  {
    hide WithoutEvents, WithoutTrips, WithoutDiscredited, Affected, FoldVehicles, Correct, UpdateBulkAlerts, Rejected,
      NewContributions, NewKeys, NewTrips, SortEvents, VehiclesOf, MaxTs, Accepted, OnePerId, CompletionsAgree, EventSet;
  }

  function BulkSystem(s: System, events: seq<Event>, batchId: int, minutes: nat): System
    requires AllValid(EventSet(events))
  {
    BulkAcceptedIsCoherent(s.tables, EventSet(events));
    BulkBlocking(s, events, batchId, minutes, BulkIds(s.tables, EventSet(events)), BulkTrips(s.tables, EventSet(events)))
  }

  datatype Step = Serve(d: Delivery) | Spark(rows: WindowTable)

  function Apply(s: System, step: Step, minutes: nat): System
    requires step.Serve? ==> AllValid(Delivered(step.d))
  {
    match step
    case Serve(Staged(batchId, rows)) => MergeSystem(s, rows, batchId, minutes)
    case Serve(Copied(batchId, events)) => BulkSystem(s, events, batchId, minutes)
    case Spark(rows) => s.(windows := SparkUpsert(s.windows, rows))
  }

  function Deliveries(steps: seq<Step>): seq<Delivery> {
    if steps == [] then []
    else
      var before, last := Deliveries(steps[..|steps| - 1]), steps[|steps| - 1];
      if last.Serve? then before + [last.d] else before
  }

  predicate WellformedSteps(steps: seq<Step>) {
    forall s :: s in steps && s.Serve? ==> AllValid(Delivered(s.d))
  }

  function RunSystem(steps: seq<Step>, minutes: nat): System
    requires WellformedSteps(steps)
  {
    if steps == [] then START
    else Apply(RunSystem(steps[..|steps| - 1], minutes), steps[|steps| - 1], minutes)
  }

  lemma {:induction false} DeliveriesAreWellformed(steps: seq<Step>)
    requires WellformedSteps(steps)
    ensures Wellformed(Deliveries(steps))
  {
    if steps != [] {
      DeliveriesAreWellformed(steps[..|steps| - 1]);
    }
  }

  /** The identity ledgers of the system are those of the delivery run: windows, vehicles and alerts never feed back. */
  lemma {:induction false} SystemLedgersAreRuns(steps: seq<Step>, minutes: nat)
    requires WellformedSteps(steps)
    ensures Wellformed(Deliveries(steps)) && RunSystem(steps, minutes).tables == Run(Deliveries(steps))
  {
    DeliveriesAreWellformed(steps);
    if steps != [] {
      var before, last := steps[..|steps| - 1], steps[|steps| - 1];
      SystemLedgersAreRuns(before, minutes);
      if last.Serve? {
        assert Deliveries(steps)[..|Deliveries(steps)| - 1] == Deliveries(before);
      }
    }
  }

  /* ---- vehicles ---- */

  /** Both forms withdraw the same vehicle rows. */
  lemma {:induction false} SameWithdrawals(vehicles: Vehicles, t: Tables, seen: set<Event>, batch: set<Event>)
    requires Mirrors(t, seen) && AllValid(seen) && AllValid(batch) && VehiclesMirror(vehicles, seen) && EmptyTripHarmless(t, batch)
    ensures WithoutDiscredited(vehicles, t.keys, BulkIds(t, batch), BulkTrips(t, batch))
         == WithoutDiscredited(vehicles, t.keys, ConflictIds(t, batch), BadTrips(t, batch))
  {
    var ids, trips, moreIds, moreTrips := ConflictIds(t, batch), BadTrips(t, batch), BulkIds(t, batch), BulkTrips(t, batch);
    BulkSetsExceedByRecorded(t, batch);
    assert "" in trips ==> forall k :: k in t.contributions && t.contributions[k].trip == Some("") ==> k in ids by {
      hide ConflictIds, BadTrips;
    }
    hide *;
    forall v | v in vehicles
      ensures vehicles[v].eventId in moreIds || ShownTripIn(vehicles[v], t.keys, moreTrips)
              <==> vehicles[v].eventId in ids || ShownTripIn(vehicles[v], t.keys, trips)
    {
      ShownEventContributes(vehicles, t, seen, v);
      SameWithdrawal(vehicles[v], t, ids, trips, moreIds, moreTrips);
    }
    SameWithdrawalsSameRows(vehicles, t.keys, ids, trips, moreIds, moreTrips);
  }

  predicate ShownTripIn(row: StateRow, keys: Keys, trips: set<string>) {
    row.eventId in keys && TripIn(keys[row.eventId].trip, trips)
  }

  lemma SameWithdrawalsSameRows(
    vehicles: Vehicles, keys: Keys, ids: set<string>, trips: set<string>, moreIds: set<string>, moreTrips: set<string>)
    requires forall v :: v in vehicles ==>
               (vehicles[v].eventId in moreIds || ShownTripIn(vehicles[v], keys, moreTrips)
                <==> vehicles[v].eventId in ids || ShownTripIn(vehicles[v], keys, trips))
    ensures WithoutDiscredited(vehicles, keys, moreIds, moreTrips) == WithoutDiscredited(vehicles, keys, ids, trips)
  {}

  lemma SameWithdrawal(row: StateRow, t: Tables, ids: set<string>, trips: set<string>, moreIds: set<string>, moreTrips: set<string>)
    requires ids <= moreIds <= ids + ConflictedIds(t.conflicts)
    requires trips - {""} <= moreTrips <= trips + BlockedTrips(t.conflicts) && "" !in moreTrips
    requires "" in trips ==> forall k :: k in t.contributions && t.contributions[k].trip == Some("") ==> k in ids
    requires row.eventId in t.contributions && row.eventId in t.keys && t.keys[row.eventId].trip == t.contributions[row.eventId].trip
    requires row.eventId !in ConflictedIds(t.conflicts) && !TripIn(t.contributions[row.eventId].trip, BlockedTrips(t.conflicts))
    ensures row.eventId in moreIds || ShownTripIn(row, t.keys, moreTrips) <==> row.eventId in ids || ShownTripIn(row, t.keys, trips)
  {
    hide ConflictedIds, BlockedTrips;
  }

  lemma ShownEventContributes(vehicles: Vehicles, t: Tables, seen: set<Event>, v: string)
    requires Mirrors(t, seen) && AllValid(seen) && VehiclesMirror(vehicles, seen) && v in vehicles
    ensures var id := vehicles[v].eventId;
            && id in t.contributions && id in t.keys && t.keys[id].trip == t.contributions[id].trip
            && id !in ConflictedIds(t.conflicts) && !TripIn(t.contributions[id].trip, BlockedTrips(t.conflicts))
  {
    assert ShowsLive(seen, v, vehicles[v]);
    var e :| Live(seen, e) && e.vehicle == v && Shows(vehicles[v], e);
    assert e.id in t.contributions && t.contributions[e.id] == ContributionOf(e);
    ContributionIsUnrecorded(t, seen, e.id);
    assert t.keys[e.id].fingerprint in seen && !BadId(seen, e.id);
  }

  lemma {:induction false} MergeKeepsVehicles(s: System, seen: set<Event>, rows: Topic, batchId: int, minutes: nat)
    requires Mirrors(s.tables, seen) && AllValid(seen) && AllValid(rows.Values) && VehiclesMirror(s.vehicles, seen)
    ensures VehiclesMirror(MergeSystem(s, rows, batchId, minutes).vehicles, seen + rows.Values)
  {
    var batch := rows.Values;
    var ids, trips := ConflictIds(s.tables, batch), BadTrips(s.tables, batch);
    StageBlocks(s.tables, seen, batch);
    AcceptedIsCoherent(s.tables, batch);
    UpsertedVehiclesMirror(s.vehicles, s.tables, seen, batch, ids, trips);
  }

  lemma {:induction false} UpsertedVehiclesMirror(
    vehicles: Vehicles, t: Tables, seen: set<Event>, batch: set<Event>, ids: set<string>, trips: set<string>)
    requires Mirrors(t, seen) && Blocks(t, seen, batch, ids, trips) && AllValid(seen) && AllValid(batch)
    requires VehiclesMirror(vehicles, seen) && OnePerId(Accepted(t.keys, batch, ids, trips))
    ensures var kept, accepted := WithoutDiscredited(vehicles, t.keys, ids, trips), Accepted(t.keys, batch, ids, trips);
            && VehiclesMirror(UpsertCandidates(kept, Candidates(kept, accepted)), seen + batch)
            && VehiclesMirror(FoldVehicles(kept, SortEvents(accepted)), seen + batch)
  {
    var kept, accepted := WithoutDiscredited(vehicles, t.keys, ids, trips), Accepted(t.keys, batch, ids, trips);
    KeptRowsAreLive(vehicles, t, seen, batch, ids, trips);
    AcceptedAreLive(t, seen, batch, ids, trips);
    UpsertKeepsMirror(kept, accepted, seen + batch);
    assert forall e :: e in SortEvents(accepted) ==> e in EventSet(SortEvents(accepted));
    FoldKeepsMirror(kept, SortEvents(accepted), seen + batch);
  }

  lemma {:induction false} AcceptedAreLive(t: Tables, seen: set<Event>, batch: set<Event>, ids: set<string>, trips: set<string>)
    requires Mirrors(t, seen) && Blocks(t, seen, batch, ids, trips) && AllValid(seen) && AllValid(batch)
    ensures forall e :: e in Accepted(t.keys, batch, ids, trips) ==> Live(seen + batch, e)
  {
    forall e | e in Accepted(t.keys, batch, ids, trips) ensures Live(seen + batch, e) {
      LiveAfter(t, seen, batch, ids, trips, e);
    }
  }

  lemma {:induction false} BulkKeepsVehicles(s: System, seen: set<Event>, events: seq<Event>, batchId: int, minutes: nat)
    requires Mirrors(s.tables, seen) && AllValid(seen) && AllValid(EventSet(events)) && VehiclesMirror(s.vehicles, seen)
    requires EmptyTripHarmless(s.tables, EventSet(events))
    ensures VehiclesMirror(BulkSystem(s, events, batchId, minutes).vehicles, seen + EventSet(events))
  {
    var batch := EventSet(events);
    var ids, trips := ConflictIds(s.tables, batch), BadTrips(s.tables, batch);
    StageBlocks(s.tables, seen, batch);
    BulkAcceptedIsCoherent(s.tables, batch);
    SameEffectOfBulk(s.tables, seen, batch);
    SameWithdrawals(s.vehicles, s.tables, seen, batch);
    hide ConflictIds, BadTrips, BulkIds, BulkTrips, Accepted, WithoutDiscredited, Blocks, Mirrors, VehiclesMirror;
    UpsertedVehiclesMirror(s.vehicles, s.tables, seen, batch, ids, trips);
  }

  /** After every run each vehicle row shows a live event of that vehicle, with a proper idle start,
      and each vehicle has at most one open idle alert. */
  lemma {:induction false} RunKeepsVehicles(steps: seq<Step>, topic: Topic, minutes: nat)
    requires WellformedSteps(steps) && Wellformed(Deliveries(steps)) && Admissible(Deliveries(steps), topic)
    ensures VehiclesMirror(RunSystem(steps, minutes).vehicles, Seen(Deliveries(steps)))
    ensures AtMostOneOpen(RunSystem(steps, minutes).alerts)
  {
    if steps != [] {
      var before, last := steps[..|steps| - 1], steps[|steps| - 1];
      DeliveriesAreWellformed(before);
      if last.Serve? {
        assert Deliveries(steps)[..|Deliveries(steps)| - 1] == Deliveries(before);
      }
      hide Apply, Mirrors, VehiclesMirror, AtMostOneOpen, Harmless, Deliver, Delivered, AllValid;
      RunKeepsVehicles(before, topic, minutes);
      SystemLedgersAreRuns(before, minutes);
      RunMirrorsReference(Deliveries(before), topic);
      SeenIsValid(Deliveries(before));
      StepKeepsVehicles(RunSystem(before, minutes), Seen(Deliveries(before)), last, minutes);
    }
  }

  lemma {:induction false} StepKeepsVehicles(s: System, seen: set<Event>, step: Step, minutes: nat)
    requires Mirrors(s.tables, seen) && AllValid(seen) && VehiclesMirror(s.vehicles, seen) && AtMostOneOpen(s.alerts)
    requires step.Serve? ==> AllValid(Delivered(step.d))
    requires step.Serve? && step.d.Copied? ==> EmptyTripHarmless(s.tables, Delivered(step.d))
    ensures var all := if step.Serve? then seen + Delivered(step.d) else seen;
            VehiclesMirror(Apply(s, step, minutes).vehicles, all) && AtMostOneOpen(Apply(s, step, minutes).alerts)
  {
    match step {
      case Serve(Staged(batchId, rows)) =>
        MergeKeepsVehicles(s, seen, rows, batchId, minutes);
        MergeKeepsAlerts(s, rows, batchId, minutes);
      case Serve(Copied(batchId, events)) =>
        BulkKeepsVehicles(s, seen, events, batchId, minutes);
        BulkKeepsAlerts(s, events, batchId, minutes);
      case Spark(rows) =>
    }
  }

  /* ---- time only moves forward between withdrawals ---- */

  /** The vehicle rows that a step leaves standing before it adds its own. */
  function KeptBy(s: System, step: Step): Vehicles {
    match step
    case Serve(Staged(_, rows)) =>
      WithoutDiscredited(s.vehicles, s.tables.keys, ConflictIds(s.tables, rows.Values), BadTrips(s.tables, rows.Values))
    case Serve(Copied(_, events)) =>
      WithoutDiscredited(s.vehicles, s.tables.keys, BulkIds(s.tables, EventSet(events)), BulkTrips(s.tables, EventSet(events)))
    case Spark(_) => s.vehicles
  }

  /** The step deletes the vehicle's row because it shows a discredited event. */
  predicate Withdraws(s: System, step: Step, vehicle: string) {
    vehicle in s.vehicles && vehicle !in KeptBy(s, step)
  }

  /** After any step a vehicle's row is unchanged or strictly newer, unless the step withdraws it. */
  lemma {:induction false} StepOnlyAdvances(s: System, step: Step, minutes: nat, vehicle: string)
    requires step.Serve? ==> AllValid(Delivered(step.d))
    requires vehicle in s.vehicles && !Withdraws(s, step, vehicle)
    ensures var after := Apply(s, step, minutes).vehicles; vehicle in after && NotOlder(after[vehicle], s.vehicles[vehicle])
  {
    hide ConflictIds, BadTrips, BulkIds, BulkTrips, Accepted, NewerRow, OnePerId, CompletionsAgree;
    var kept := KeptBy(s, step);
    assert vehicle in kept && kept[vehicle] == s.vehicles[vehicle];
    match step {
      case Serve(Staged(batchId, rows)) =>
        AcceptedIsCoherent(s.tables, rows.Values);
        UpsertOnlyAdvances(kept, Accepted(s.tables.keys, rows.Values, ConflictIds(s.tables, rows.Values), BadTrips(s.tables, rows.Values)), vehicle);
      case Serve(Copied(batchId, events)) =>
        var batch := EventSet(events);
        BulkAcceptedIsCoherent(s.tables, batch);
        FoldOnlyAdvances(kept, SortEvents(Accepted(s.tables.keys, batch, BulkIds(s.tables, batch), BulkTrips(s.tables, batch))), vehicle);
      case Spark(_) =>
    }
  }

  lemma NotOlderIsTransitive(a: StateRow, b: StateRow, c: StateRow)
    requires NotOlder(a, b) && NotOlder(b, c)
    ensures NotOlder(a, c)
  {
    if a.ts == b.ts == c.ts && a != b && b != c {
      Text.LessIsTransitive(c.eventId, b.eventId, a.eventId);
    }
  }

  /** Over any stretch of a run in which no step withdraws a vehicle's row, (time, event id) of the row never goes back. */
  lemma {:induction false} StretchOnlyAdvances(steps: seq<Step>, more: seq<Step>, minutes: nat, vehicle: string)
    requires WellformedSteps(steps) && WellformedSteps(steps + more) && vehicle in RunSystem(steps, minutes).vehicles
    requires forall i :: 0 <= i < |more| ==> WellformedSteps(steps + more[..i]) && !Withdraws(RunSystem(steps + more[..i], minutes), more[i], vehicle)
    ensures var was, now := RunSystem(steps, minutes).vehicles, RunSystem(steps + more, minutes).vehicles;
            vehicle in now && NotOlder(now[vehicle], was[vehicle])
    decreases |more|
  {
    hide Apply, Withdraws, NotOlder, RunSystem;
    if more == [] {
      assert steps + more == steps;
      NotOlderThanItself(RunSystem(steps, minutes).vehicles[vehicle]);
    } else {
      var most, last := more[..|more| - 1], more[|more| - 1];
      assert (steps + more)[..|steps + more| - 1] == steps + most;
      forall i | 0 <= i < |most| ensures most[..i] == more[..i] && most[i] == more[i] {}
      StretchOnlyAdvances(steps, most, minutes, vehicle);
      assert last in steps + more;
      assert more[..|more| - 1] == most;
      RunUnfoldsTo(steps + more, minutes);
      StepOnlyAdvances(RunSystem(steps + most, minutes), last, minutes, vehicle);
      NotOlderIsTransitive(RunSystem(steps + more, minutes).vehicles[vehicle], RunSystem(steps + most, minutes).vehicles[vehicle],
                           RunSystem(steps, minutes).vehicles[vehicle]);
    }
  }

  lemma RunUnfoldsTo(steps: seq<Step>, minutes: nat)
    requires steps != [] && WellformedSteps(steps)
    ensures var last := steps[|steps| - 1];
            && WellformedSteps(steps[..|steps| - 1]) && (last.Serve? ==> AllValid(Delivered(last.d)))
            && RunSystem(steps, minutes) == Apply(RunSystem(steps[..|steps| - 1], minutes), last, minutes)
  {
    hide Apply;
  }

  lemma NotOlderThanItself(row: StateRow)
    ensures NotOlder(row, row)
  {}

  lemma MergeKeepsAlerts(s: System, rows: Topic, batchId: int, minutes: nat)
    requires AtMostOneOpen(s.alerts)
    ensures AtMostOneOpen(MergeSystem(s, rows, batchId, minutes).alerts)
  {
    var batch := rows.Values;
    var ids, trips := ConflictIds(s.tables, batch), BadTrips(s.tables, batch);
    var accepted := Accepted(s.tables.keys, batch, ids, trips);
    AcceptedIsCoherent(s.tables, batch);
    var kept := WithoutDiscredited(s.vehicles, s.tables.keys, ids, trips);
    AlertsStaySingle(s.alerts, Candidates(kept, accepted), MaxTs(accepted), minutes);
  }

  lemma BulkKeepsAlerts(s: System, events: seq<Event>, batchId: int, minutes: nat)
    requires AtMostOneOpen(s.alerts) && AllValid(EventSet(events))
    ensures AtMostOneOpen(BulkSystem(s, events, batchId, minutes).alerts)
  {
    var batch := EventSet(events);
    var ids, trips := BulkIds(s.tables, batch), BulkTrips(s.tables, batch);
    var accepted := Accepted(s.tables.keys, batch, ids, trips);
    BulkAcceptedIsCoherent(s.tables, batch);
    BulkAlertsStaySingle(s.alerts, BulkSystem(s, events, batchId, minutes).vehicles, VehiclesOf(accepted), MaxTs(accepted), minutes);
  }

  /* ---- windows ---- */

  /** The contributions as of the last correction of each window; windows never corrected are absent. */
  ghost function AsOf(steps: seq<Step>, minutes: nat): map<WindowKey, Contributions>
    requires WellformedSteps(steps)
  {
    if steps == [] then map[]
    else
      var before, last := steps[..|steps| - 1], steps[|steps| - 1];
      AsOf(before, minutes)
      + map w | w in AffectedBy(RunSystem(before, minutes).tables, last) :: RunSystem(steps, minutes).tables.contributions
  }

  function AffectedBy(t: Tables, step: Step): set<WindowKey> {
    match step
    case Serve(Staged(_, rows)) => Affected(t.contributions, rows.Values, ConflictIds(t, rows.Values), BadTrips(t, rows.Values))
    case Serve(Copied(_, events)) =>
      Affected(t.contributions, EventSet(events), BulkIds(t, EventSet(events)), BulkTrips(t, EventSet(events)))
    case Spark(_) => {}
  }

  lemma ApplyWindows(s: System, step: Step, minutes: nat)
    requires step.Serve? ==> AllValid(Delivered(step.d))
    ensures var after := Apply(s, step, minutes);
            after.windows == match step
                             case Serve(_) => Correct(s.windows, AffectedBy(s.tables, step), after.tables.contributions)
                             case Spark(rows) => SparkUpsert(s.windows, rows)
  {}

  /** After every run a window is marked corrected exactly if some merge corrected it, and its row is then the
      aggregate over the contributions at the last such merge, whatever Spark wrote before or after. */
  lemma {:induction false} CorrectedRowsAreExact(steps: seq<Step>, minutes: nat, w: WindowKey)
    requires WellformedSteps(steps)
    ensures var table := RunSystem(steps, minutes).windows;
            && (w in AsOf(steps, minutes) <==> w in table && table[w].corrected)
            && (w in AsOf(steps, minutes) ==> table[w] == Aggregate(AsOf(steps, minutes)[w], w))
  {
    if steps != [] {
      var before, last := steps[..|steps| - 1], steps[|steps| - 1];
      CorrectedRowsAreExact(before, minutes, w);
      ApplyWindows(RunSystem(before, minutes), last, minutes);
    }
  }

  /** A step that takes a contribution away corrects its window on the spot. */
  lemma {:induction false} LossIsCorrected(steps: seq<Step>, minutes: nat, k: string)
    requires steps != [] && WellformedSteps(steps)
    requires k in RunSystem(steps[..|steps| - 1], minutes).tables.contributions
    requires k !in RunSystem(steps, minutes).tables.contributions
    ensures var lost := RunSystem(steps[..|steps| - 1], minutes).tables.contributions[k];
            var w, now := WindowKey(lost.window, lost.zone), RunSystem(steps, minutes);
            w in now.windows && now.windows[w] == Aggregate(now.tables.contributions, w)
  {
    var s, last := RunSystem(steps[..|steps| - 1], minutes), steps[|steps| - 1];
    var w := WindowKey(s.tables.contributions[k].window, s.tables.contributions[k].zone);
    ApplyWindows(s, last, minutes);
    if w !in AffectedBy(s.tables, last) {
      UnaffectedIsKept(s, last, minutes, k);
    }
  }

  /** A contribution leaves the table only together with a correction of its window. */
  lemma UnaffectedIsKept(s: System, step: Step, minutes: nat, k: string)
    requires step.Serve? ==> AllValid(Delivered(step.d))
    requires k in s.tables.contributions
    requires WindowKey(s.tables.contributions[k].window, s.tables.contributions[k].zone) !in AffectedBy(s.tables, step)
    ensures k in Apply(s, step, minutes).tables.contributions
    ensures Apply(s, step, minutes).tables.contributions[k] == s.tables.contributions[k]
  {
    match step {
      case Serve(Staged(_, rows)) =>
        NotAffectedNotRemoved(s.tables.contributions, rows.Values, ConflictIds(s.tables, rows.Values), BadTrips(s.tables, rows.Values), k);
      case Serve(Copied(_, events)) =>
        NotAffectedNotRemoved(s.tables.contributions, EventSet(events),
                              BulkIds(s.tables, EventSet(events)), BulkTrips(s.tables, EventSet(events)), k);
      case Spark(_) =>
    }
  }

  lemma NotAffectedNotRemoved(cs: Contributions, batch: set<Event>, ids: set<string>, trips: set<string>, k: string)
    requires k in cs && WindowKey(cs[k].window, cs[k].zone) !in Affected(cs, batch, ids, trips)
    ensures k in WithoutEvents(cs, ids, trips) && WithoutEvents(cs, ids, trips)[k] == cs[k]
  {}

  /** A corrected row is still the aggregate over the present contributions exactly if nothing gained since the correction
      is completed or shows a vehicle that was not counted in the same share before. */
  lemma {:induction false} CorrectedRowIsCurrentExactly(steps: seq<Step>, minutes: nat, w: WindowKey)
    requires WellformedSteps(steps) && w in AsOf(steps, minutes)
    ensures w in RunSystem(steps, minutes).windows
    ensures var now := RunSystem(steps, minutes);
            now.windows[w] == Aggregate(now.tables.contributions, w) <==> AddsNothing(AsOf(steps, minutes)[w], now.tables.contributions, w)
  {
    hide *;
    CorrectedRowsAreExact(steps, minutes, w);
    OnlyGainsSinceCorrection(steps, minutes, w);
    GainsKeepAggregateExactly(AsOf(steps, minutes)[w], RunSystem(steps, minutes).tables.contributions, w);
  }

  /** Between corrections a window only gains contributions: good late events reach the contributions, not the row. */
  lemma {:induction false} OnlyGainsSinceCorrection(steps: seq<Step>, minutes: nat, w: WindowKey)
    requires WellformedSteps(steps) && w in AsOf(steps, minutes)
    ensures var was, now := AsOf(steps, minutes)[w], RunSystem(steps, minutes).tables.contributions;
            forall k :: k in Members(was, w) ==> k in now && now[k] == was[k]
  {
    var before, last := steps[..|steps| - 1], steps[|steps| - 1];
    var s := RunSystem(before, minutes);
    if w !in AffectedBy(s.tables, last) {
      OnlyGainsSinceCorrection(before, minutes, w);
      var was := AsOf(before, minutes)[w];
      forall k | k in Members(was, w)
        ensures k in RunSystem(steps, minutes).tables.contributions && RunSystem(steps, minutes).tables.contributions[k] == was[k]
      {
        UnaffectedIsKept(s, last, minutes, k);
      }
    }
  }
}
