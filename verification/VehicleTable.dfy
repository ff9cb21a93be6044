/** The live vehicle table and the idle alerts across whole batches. */
module VehicleTable {
  import Text
  import opened Events
  import opened Reference
  import opened Ledgers
  import opened LedgerProof
  import opened MergeProof
  import opened VehicleState

  function RowOf(vehicles: Vehicles, vehicle: string): Option<StateRow> {
    if vehicle in vehicles then Some(vehicles[vehicle]) else None
  }

  /** Rows that show a discredited event are deleted, never replaced by an older state. */
  function WithoutDiscredited(vehicles: Vehicles, keys: Keys, ids: set<string>, trips: set<string>): Vehicles {
    map v | v in vehicles && vehicles[v].eventId !in ids
            && !(vehicles[v].eventId in keys && TripIn(keys[vehicles[v].eventId].trip, trips)) :: vehicles[v]
  }

  function VehiclesOf(events: set<Event>): set<string> {
    set e | e in events :: e.vehicle
  }

  lemma VehicleHasEvents(events: set<Event>)
    ensures forall v :: v in VehiclesOf(events) <==> OfVehicle(events, v) != {}
  {
    forall v ensures v in VehiclesOf(events) <==> OfVehicle(events, v) != {} {
      if v in VehiclesOf(events) {
        var e :| e in events && e.vehicle == v;
        assert e in OfVehicle(events, v);
      } else {
        forall e | e in events ensures e !in OfVehicle(events, v) {}
        assert OfVehicle(events, v) == {};
      }
    }
  }

  /** `stage_state_candidates` */
  function Candidates(kept: Vehicles, accepted: set<Event>): Vehicles
    requires OnePerId(accepted)
  {
    VehicleHasEvents(accepted);
    map v | v in VehiclesOf(accepted) :: Candidate(RowOf(kept, v), OfVehicle(accepted, v))
  }

  /** The guarded upsert of all candidates. */
  function UpsertCandidates(kept: Vehicles, candidates: Vehicles): Vehicles {
    kept + map v | v in candidates && (v in kept ==> NewerRow(candidates[v], kept[v])) :: candidates[v]
  }

  predicate NewerRow(a: StateRow, b: StateRow) {
    b.ts < a.ts || (b.ts == a.ts && Text.Less(b.eventId, a.eventId))
  }

  /** The sequential form: every accepted event in time order. */
  function FoldVehicles(kept: Vehicles, events: seq<Event>): Vehicles {
    if events == [] then kept
    else
      var before, e := FoldVehicles(kept, events[..|events| - 1]), events[|events| - 1];
      match FoldStep(RowOf(before, e.vehicle), e)
      case None => before
      case Some(row) => before[e.vehicle := row]
  }

  function Filter(events: seq<Event>, vehicle: string): (r: seq<Event>)
    ensures forall e :: e in r <==> e in events && e.vehicle == vehicle
  {
    if events == [] then []
    else
      var most, e := events[..|events| - 1], events[|events| - 1];
      assert events == most + [e];
      if e.vehicle == vehicle then Filter(most, vehicle) + [e] else Filter(most, vehicle)
  }

  /** Vehicles are folded independently of each other. */
  lemma {:induction false} FoldIsPerVehicle(kept: Vehicles, events: seq<Event>, vehicle: string)
    ensures RowOf(FoldVehicles(kept, events), vehicle) == Fold(RowOf(kept, vehicle), Filter(events, vehicle))
  {
    if events != [] {
      var most, e := events[..|events| - 1], events[|events| - 1];
      FoldIsPerVehicle(kept, most, vehicle);
      if e.vehicle == vehicle {
        assert Filter(events, vehicle) == Filter(most, vehicle) + [e];
        assert Filter(events, vehicle)[..|Filter(events, vehicle)| - 1] == Filter(most, vehicle);
      } else {
        assert Filter(events, vehicle) == Filter(most, vehicle);
      }
    }
  }

  lemma {:induction false} FilterIsSorted(events: seq<Event>, vehicle: string)
    requires Sorted(events)
    ensures Sorted(Filter(events, vehicle))
  {
    if events != [] {
      var most, e := events[..|events| - 1], events[|events| - 1];
      FilterIsSorted(most, vehicle);
      forall f | f in Filter(most, vehicle) ensures Before(f, e) {
        assert f in most;
      }
    }
  }

  lemma CandidateOf(kept: Vehicles, accepted: set<Event>, vehicle: string)
    requires OnePerId(accepted)
    ensures RowOf(UpsertCandidates(kept, Candidates(kept, accepted)), vehicle)
         == SetBased(RowOf(kept, vehicle), OfVehicle(accepted, vehicle))
  {
    var events := OfVehicle(accepted, vehicle);
    VehicleHasEvents(accepted);
    if events != {} {
      var c := Candidate(RowOf(kept, vehicle), events);
      assert Candidates(kept, accepted)[vehicle] == c;
      assert c.ts == Latest(events).ts && c.eventId == Latest(events).id;
    }
  }

  /** For any stored vehicles and any accepted events, late ones included, the two paths store the same row for a vehicle
      exactly when its own events meet the agreement condition. */
  lemma {:induction false} PathsAgreeOnVehicle(kept: Vehicles, accepted: set<Event>, sorted: seq<Event>, vehicle: string)
    requires OnePerId(accepted) && Sorted(sorted) && EventSet(sorted) == accepted
    ensures OnePerId(EventSet(Filter(sorted, vehicle)))
    ensures RowOf(UpsertCandidates(kept, Candidates(kept, accepted)), vehicle) == RowOf(FoldVehicles(kept, sorted), vehicle)
            <==> FormsAgree(RowOf(kept, vehicle), Filter(sorted, vehicle))
  {
    CandidateOf(kept, accepted, vehicle);
    FoldIsPerVehicle(kept, sorted, vehicle);
    FilterIsSorted(sorted, vehicle);
    assert EventSet(Filter(sorted, vehicle)) == OfVehicle(accepted, vehicle);
    SetBasedMeetsFold(RowOf(kept, vehicle), Filter(sorted, vehicle));
  }

  /* ---- every row shows a live event ---- */

  predicate Shows(row: StateRow, e: Event) {
    row.eventId == e.id && row.ts == e.ts && row.zone == e.zone && row.status == e.status && Proper(row)
  }

  ghost predicate ShowsLive(seen: set<Event>, vehicle: string, row: StateRow) {
    exists e :: Live(seen, e) && e.vehicle == vehicle && Shows(row, e)
  }

  ghost predicate VehiclesMirror(vehicles: Vehicles, seen: set<Event>) {
    forall v :: v in vehicles ==> ShowsLive(seen, v, vehicles[v])
  }

  /** Rows that survive the deletion still show a live event. */
  lemma {:induction false} KeptRowsAreLive(
    vehicles: Vehicles, t: Tables, seen: set<Event>, batch: set<Event>, ids: set<string>, trips: set<string>)
    requires Mirrors(t, seen) && Blocks(t, seen, batch, ids, trips) && AllValid(seen)
    requires VehiclesMirror(vehicles, seen)
    ensures VehiclesMirror(WithoutDiscredited(vehicles, t.keys, ids, trips), seen + batch)
  {
    var kept := WithoutDiscredited(vehicles, t.keys, ids, trips);
    forall v | v in kept ensures ShowsLive(seen + batch, v, kept[v]) {
      assert ShowsLive(seen, v, vehicles[v]);
      var e :| Live(seen, e) && e.vehicle == v && Shows(vehicles[v], e);
      LiveIsKeyed(t, seen, e);
      SurvivesExactlyIfUnblocked(t, seen, batch, ids, trips, e);
    }
  }

  lemma LiveIsKeyed(t: Tables, seen: set<Event>, e: Event)
    requires KeysMirror(t, seen) && ContributionsMirror(t, seen) && Live(seen, e)
    ensures e.id in t.keys && t.keys[e.id].trip == e.trip
  {
    assert t.keys[e.id].fingerprint == e;
  }

  lemma CandidateIsProper(prior: Option<StateRow>, events: set<Event>)
    requires events != {} && OnePerId(events) && ProperOrAbsent(prior)
    requires prior.Some? ==> Newer(Latest(events), prior.value)
    ensures Proper(Candidate(prior, events)) && Shows(Candidate(prior, events), Latest(events))
  {}

  lemma {:induction false} UpsertKeepsMirror(kept: Vehicles, accepted: set<Event>, all: set<Event>)
    requires OnePerId(accepted) && VehiclesMirror(kept, all)
    requires forall e :: e in accepted ==> Live(all, e)
    ensures VehiclesMirror(UpsertCandidates(kept, Candidates(kept, accepted)), all)
  {
    var after := UpsertCandidates(kept, Candidates(kept, accepted));
    hide UpsertCandidates, Candidates, ShowsLive, SetBased, Live, OfVehicle;
    forall v | v in after ensures ShowsLive(all, v, after[v]) {
      CandidateOf(kept, accepted, v);
      RowShowsLive(RowOf(kept, v), accepted, all, v);
    }
  }

  lemma {:induction false} RowShowsLive(prior: Option<StateRow>, accepted: set<Event>, all: set<Event>, vehicle: string)
    requires OnePerId(accepted) && forall e :: e in accepted ==> Live(all, e)
    requires prior.Some? ==> ShowsLive(all, vehicle, prior.value)
    ensures var row := SetBased(prior, OfVehicle(accepted, vehicle)); row.Some? ==> ShowsLive(all, vehicle, row.value)
  {
    hide Live, IdleSince;
    var events := OfVehicle(accepted, vehicle);
    if events != {} && (prior.Some? ==> Newer(Latest(events), prior.value)) {
      CandidateIsProper(prior, events);
      assert Live(all, Latest(events));
    }
  }

  lemma {:induction false} FoldKeepsMirror(kept: Vehicles, events: seq<Event>, all: set<Event>)
    requires VehiclesMirror(kept, all) && forall e :: e in events ==> Live(all, e)
    ensures VehiclesMirror(FoldVehicles(kept, events), all)
  {
    if events != [] {
      var most, e := events[..|events| - 1], events[|events| - 1];
      FoldKeepsMirror(kept, most, all);
      var before, after := FoldVehicles(kept, most), FoldVehicles(kept, events);
      assert Live(all, e);
      if e.vehicle in before {
        assert ShowsLive(all, e.vehicle, before[e.vehicle]);
      }
      forall v | v in after ensures ShowsLive(all, v, after[v]) {
        if v != e.vehicle || (v in before && after[v] == before[v]) {
          assert ShowsLive(all, v, before[v]);
        } else {
          assert Shows(after[v], e);
        }
      }
    }
  }

  /* ---- time only moves forward between deletions ---- */

  predicate NotOlder(a: StateRow, b: StateRow) {
    a == b || NewerRow(a, b)
  }

  /** A row that survives the deletion is afterwards unchanged or strictly newer, in either form. */
  lemma UpsertOnlyAdvances(kept: Vehicles, accepted: set<Event>, vehicle: string)
    requires OnePerId(accepted) && vehicle in kept
    ensures var after := UpsertCandidates(kept, Candidates(kept, accepted));
            vehicle in after && NotOlder(after[vehicle], kept[vehicle])
  {}

  lemma {:induction false} FoldOnlyAdvances(kept: Vehicles, events: seq<Event>, vehicle: string)
    requires vehicle in kept
    ensures var after := FoldVehicles(kept, events);
            vehicle in after && NotOlder(after[vehicle], kept[vehicle])
  {
    if events != [] {
      var most, e := events[..|events| - 1], events[|events| - 1];
      FoldOnlyAdvances(kept, most, vehicle);
      var before, after := FoldVehicles(kept, most)[vehicle], FoldVehicles(kept, events)[vehicle];
      if NewerRow(after, before) && NewerRow(before, kept[vehicle]) && after.ts == kept[vehicle].ts {
        Text.LessIsTransitive(kept[vehicle].eventId, before.eventId, after.eventId);
      }
    }
  }

  /* ---- idle alerts ---- */

  /** A row of `rt_alerts` of type idle_threshold; `idleFor` in microseconds. */
  datatype Alert = Alert(idleSince: int, idleFor: int, open: bool)

  /** Alert history per vehicle, oldest first. */
  type Alerts = map<string, seq<Alert>>

  function HistoryOf(alerts: Alerts, vehicle: string): seq<Alert> {
    if vehicle in alerts then alerts[vehicle] else []
  }

  predicate HasOpen(history: seq<Alert>) {
    exists i :: 0 <= i < |history| && history[i].open
  }

  function Resolve(history: seq<Alert>): seq<Alert> {
    seq(|history|, i requires 0 <= i < |history| => history[i].(open := false))
  }

  /** Raise, then resolve: the last two statements of the merge for one candidate. */
  function AlertStep(history: seq<Alert>, candidate: StateRow, reference: int, minutes: nat): seq<Alert> {
    var raised :=
      if candidate.idleSince.Some? && reference - candidate.idleSince.value >= minutes * MINUTE && !HasOpen(history)
      then history + [Alert(candidate.idleSince.value, reference - candidate.idleSince.value, true)]
      else history;
    if candidate.status != Idle then Resolve(raised) else raised
  }

  function UpdateAlerts(alerts: Alerts, candidates: Vehicles, reference: Option<int>, minutes: nat): Alerts {
    if reference.None? then alerts
    else alerts + map v | v in candidates :: AlertStep(HistoryOf(alerts, v), candidates[v], reference.value, minutes)
  }

  ghost predicate AtMostOneOpen(alerts: Alerts) {
    forall v, i, j :: v in alerts && 0 <= i < j < |alerts[v]| ==> !(alerts[v][i].open && alerts[v][j].open)
  }

  lemma AlertsStaySingle(alerts: Alerts, candidates: Vehicles, reference: Option<int>, minutes: nat)
    requires AtMostOneOpen(alerts)
    ensures AtMostOneOpen(UpdateAlerts(alerts, candidates, reference, minutes))
    ensures reference.Some? ==> forall v :: v in candidates && candidates[v].status != Idle ==>
              !HasOpen(HistoryOf(UpdateAlerts(alerts, candidates, reference, minutes), v))
  {
    var after: Alerts := UpdateAlerts(alerts, candidates, reference, minutes);
    forall v: string, i, j | v in after && 0 <= i < j < |after[v]| ensures !(after[v][i].open && after[v][j].open) {
      if reference.Some? && v in candidates {
        assert after[v] == AlertStep(HistoryOf(alerts, v), candidates[v], reference.value, minutes);
      }
    }
  }

  /** After a merge the alert of a candidate is open exactly if it is idle and was reported before or has idled long enough. */
  lemma AlertOpenAfterMerge(history: seq<Alert>, candidate: StateRow, reference: int, minutes: nat)
    requires Proper(candidate)
    ensures HasOpen(AlertStep(history, candidate, reference, minutes)) <==>
              && candidate.status == Idle
              && (HasOpen(history) || (candidate.idleSince.Some? && reference - candidate.idleSince.value >= minutes * MINUTE))
  {
    var raised := history + [Alert(0, 0, true)];
    if HasOpen(history) {
      var i :| 0 <= i < |history| && history[i].open;
      assert AlertStep(history, candidate, reference, minutes)[i].open <==> candidate.status == Idle;
    } else if candidate.idleSince.Some? && reference - candidate.idleSince.value >= minutes * MINUTE {
      assert AlertStep(history, candidate, reference, minutes)[|history|].open;
    }
  }

  /** `bulk_serve` closes the open alert it looked up. */
  function CloseOpen(history: seq<Alert>): seq<Alert> {
    if history == [] then []
    else
      var most, last := history[..|history| - 1], history[|history| - 1];
      if last.open then most + [last.(open := false)] else CloseOpen(most) + [last]
  }

  /** Raise or resolve by the stored row of one vehicle of the batch. */
  function BulkAlertStep(history: seq<Alert>, idleSince: Option<int>, reference: int, minutes: nat): seq<Alert> {
    if idleSince.Some? && reference - idleSince.value >= minutes * MINUTE then
      if HasOpen(history) then history
      else history + [Alert(idleSince.value, reference - idleSince.value, true)]
    else if HasOpen(history) then CloseOpen(history)
    else history
  }

  function IdleStart(vehicles: Vehicles, vehicle: string): Option<int> {
    if vehicle in vehicles then vehicles[vehicle].idleSince else None
  }

  function UpdateBulkAlerts(alerts: Alerts, vehicles: Vehicles, check: set<string>, reference: Option<int>, minutes: nat): Alerts {
    if reference.None? then alerts
    else alerts + map v | v in check :: BulkAlertStep(HistoryOf(alerts, v), IdleStart(vehicles, v), reference.value, minutes)
  }

  lemma {:induction false} CloseOpenOpensNothing(history: seq<Alert>)
    ensures |CloseOpen(history)| == |history|
    ensures forall i :: 0 <= i < |history| && CloseOpen(history)[i].open ==> history[i].open
  {
    if history != [] {
      CloseOpenOpensNothing(history[..|history| - 1]);
    }
  }

  /** `bulk_serve` also closes the alert of a vehicle that is idle but not for long enough: afterwards it is open
      exactly if the threshold is met now. */
  lemma {:induction false} AlertOpenAfterBulk(history: seq<Alert>, idleSince: Option<int>, reference: int, minutes: nat)
    requires forall i, j :: 0 <= i < j < |history| ==> !(history[i].open && history[j].open)
    ensures HasOpen(BulkAlertStep(history, idleSince, reference, minutes)) <==>
              idleSince.Some? && reference - idleSince.value >= minutes * MINUTE
  {
    if idleSince.Some? && reference - idleSince.value >= minutes * MINUTE {
      if !HasOpen(history) {
        assert BulkAlertStep(history, idleSince, reference, minutes)[|history|].open;
      }
    } else {
      OnlyOpenIsClosed(history);
    }
  }

  lemma {:induction false} OnlyOpenIsClosed(history: seq<Alert>)
    requires forall i, j :: 0 <= i < j < |history| ==> !(history[i].open && history[j].open)
    ensures !HasOpen(CloseOpen(history))
  {
    if history != [] {
      var most := history[..|history| - 1];
      if !history[|history| - 1].open {
        OnlyOpenIsClosed(most);
      }
    }
  }

  lemma BulkAlertsStaySingle(alerts: Alerts, vehicles: Vehicles, check: set<string>, reference: Option<int>, minutes: nat)
    requires AtMostOneOpen(alerts)
    ensures AtMostOneOpen(UpdateBulkAlerts(alerts, vehicles, check, reference, minutes))
  {
    var after: Alerts := UpdateBulkAlerts(alerts, vehicles, check, reference, minutes);
    forall v: string, i, j | v in after && 0 <= i < j < |after[v]| ensures !(after[v][i].open && after[v][j].open) {
      CloseOpenOpensNothing(HistoryOf(alerts, v));
      if reference.Some? && v in check {
        assert after[v] == BulkAlertStep(HistoryOf(alerts, v), IdleStart(vehicles, v), reference.value, minutes);
      }
    }
  }
}
