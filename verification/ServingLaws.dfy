/** What one delivery does to alerts, vehicles and windows, read off the tables before and after it and the events themselves. */
module ServingLaws {
  import Text
  import opened Events
  import opened Reference
  import opened Ledgers
  import opened LedgerProof
  import opened MergeProof
  import opened BulkLedgers
  import opened VehicleState
  import opened VehicleTable
  import opened Windows
  import opened ServingSystem

  /** The delivered events that get an identity row. */
  function Admitted(before: Tables, after: Tables, batch: set<Event>): set<Event> {
    set e | e in batch && e.id !in before.keys && e.id in after.keys
  }

  lemma AdmittedAreAccepted(t: Tables, batch: set<Event>, ids: set<string>, trips: set<string>, conflicts: Conflicts, batchId: int)
    requires OnePerId(Accepted(t.keys, batch, ids, trips)) && CompletionsAgree(Accepted(t.keys, batch, ids, trips))
    requires forall a, b :: a in batch && b in batch && a.id == b.id && a != b ==> a.id in ids
    ensures Admitted(t, After(t, batch, ids, trips, conflicts, batchId), batch) == Accepted(t.keys, batch, ids, trips)
  {
    var accepted, after := Accepted(t.keys, batch, ids, trips), After(t, batch, ids, trips, conflicts, batchId);
    NewKeysAreAccepted(accepted, batchId);
    forall e | e in Admitted(t, after, batch) ensures e in accepted {
      var f :| f in accepted && f.id == e.id;
    }
  }

  lemma MergeAdmits(s: System, rows: Topic, batchId: int, minutes: nat)
    ensures var t, batch := s.tables, rows.Values;
            Admitted(t, MergeSystem(s, rows, batchId, minutes).tables, batch) == Accepted(t.keys, batch, ConflictIds(t, batch), BadTrips(t, batch))
  {
    var t, batch := s.tables, rows.Values;
    var ids, trips := ConflictIds(t, batch), BadTrips(t, batch);
    AcceptedIsCoherent(t, batch);
    assert forall a, b :: a in batch && b in batch && a.id == b.id && a != b ==> a.id in ids;
    hide ConflictIds, BadTrips, Accepted, After, Admitted, OnePerId, CompletionsAgree;
    AdmittedAreAccepted(t, batch, ids, trips, RecordConflicts(t, rows, batchId, ids, trips), batchId);
  }

  lemma BulkAdmits(s: System, events: seq<Event>, batchId: int, minutes: nat)
    requires AllValid(EventSet(events))
    ensures var t, batch := s.tables, EventSet(events);
            Admitted(t, BulkSystem(s, events, batchId, minutes).tables, batch) == Accepted(t.keys, batch, BulkIds(t, batch), BulkTrips(t, batch))
  {
    var t, batch := s.tables, EventSet(events);
    var ids, trips := BulkIds(t, batch), BulkTrips(t, batch);
    BulkAcceptedIsCoherent(t, batch);
    assert forall a, b :: a in batch && b in batch && a.id == b.id && a != b ==> a.id in ids;
    hide BulkIds, BulkTrips, Accepted, After, Admitted, OnePerId, CompletionsAgree, AllValid;
    AdmittedAreAccepted(t, batch, ids, trips, Rejected(t, events, batchId, ids, trips) + t.conflicts, batchId);
  }

  /* ---- idle alerts ---- */

  function Past(alerts: Alerts, v: string): seq<Alert> {
    if v in alerts then alerts[v] else []
  }

  ghost predicate Reported(history: seq<Alert>) {
    exists i :: 0 <= i < |history| && history[i].open
  }

  /** No alert is lost or rewritten, none is reopened, and at most one is added: for this idle start and this long. */
  ghost predicate HistoryKept(before: seq<Alert>, after: seq<Alert>, since: Option<int>, latest: int) {
    && |before| <= |after| <= |before| + 1
    && (forall i :: 0 <= i < |before| ==>
          after[i].idleSince == before[i].idleSince && after[i].idleFor == before[i].idleFor && (after[i].open ==> before[i].open))
    && (|after| > |before| ==>
          since.Some? && !Reported(before) && after[|before|].idleSince == since.value && after[|before|].idleFor == latest - since.value)
  }

  predicate LongEnough(since: Option<int>, latest: int, minutes: nat) {
    since.Some? && latest - since.value >= minutes * 60_000_000
  }

  predicate IsLatest(events: set<Event>, latest: int) {
    (exists e :: e in events && e.ts == latest) && forall e :: e in events ==> e.ts <= latest
  }

  function StartIn(vehicles: Vehicles, v: string): Option<int> {
    if v in vehicles then vehicles[v].idleSince else None
  }

  predicate Unchanged(before: Alerts, after: Alerts, v: string) {
    (v in after <==> v in before) && (v in after ==> after[v] == before[v])
  }

  lemma {:induction false} BulkStep(history: seq<Alert>, since: Option<int>, latest: int, minutes: nat)
    requires forall i, j :: 0 <= i < j < |history| ==> !(history[i].open && history[j].open)
    ensures var after := BulkAlertStep(history, since, latest, minutes);
            (Reported(after) <==> LongEnough(since, latest, minutes)) && HistoryKept(history, after, since, latest)
  {
    AlertOpenAfterBulk(history, since, latest, minutes);
    CloseKeeps(history);
  }

  lemma {:induction false} CloseKeeps(history: seq<Alert>)
    ensures |CloseOpen(history)| == |history|
    ensures forall i :: 0 <= i < |history| ==>
              var a, b := CloseOpen(history)[i], history[i]; a.idleSince == b.idleSince && a.idleFor == b.idleFor && (a.open ==> b.open)
  {
    if history != [] {
      CloseKeeps(history[..|history| - 1]);
    }
  }

  /** The vehicle has an admitted event: its alert is open exactly if its stored idle start lies long enough before the latest
      one, and its history is kept. It has none: nothing changes. */
  ghost predicate AlertFollows(before: System, after: System, batch: set<Event>, minutes: nat, latest: int, v: string) {
    if Mine(before.tables, after.tables, batch, v) == {} then Unchanged(before.alerts, after.alerts, v)
    else
      && (Reported(Past(after.alerts, v)) <==> LongEnough(StartIn(after.vehicles, v), latest, minutes))
      && HistoryKept(Past(before.alerts, v), Past(after.alerts, v), StartIn(after.vehicles, v), latest)
  }

  /** After a row-by-row batch every vehicle of an admitted event has an open alert exactly if its stored row has an idle
      start that lies at least the threshold before the latest admitted event; its earlier alerts stay in its history.
      Every other vehicle's history is unchanged. */
  lemma {:induction false} BulkAlertsExactly(s: System, events: seq<Event>, batchId: int, minutes: nat, latest: int, v: string)
    requires AllValid(EventSet(events)) && AtMostOneOpen(s.alerts)
    requires IsLatest(Admitted(s.tables, BulkSystem(s, events, batchId, minutes).tables, EventSet(events)), latest)
    ensures AlertFollows(s, BulkSystem(s, events, batchId, minutes), EventSet(events), minutes, latest, v)
  {
    var after := BulkSystem(s, events, batchId, minutes);
    var admitted := Admitted(s.tables, after.tables, EventSet(events));
    BulkAdmits(s, events, batchId, minutes);
    BulkAlertTable(s, events, batchId, minutes);
    hide *;
    assert OnePerId(admitted) by { BulkAcceptedIsCoherent(s.tables, EventSet(events)); }
    LatestIsMax(admitted, latest);
    StepAt(s.alerts, after.vehicles, admitted, latest, minutes, v);
    StepFollows(s, after, EventSet(events), minutes, latest, v);
  }

  lemma StepFollows(before: System, after: System, batch: set<Event>, minutes: nat, latest: int, v: string)
    requires var mine := set e | e in Admitted(before.tables, after.tables, batch) && e.vehicle == v;
             if mine == {} then Unchanged(before.alerts, after.alerts, v)
             else
               && (Reported(Past(after.alerts, v)) <==> LongEnough(StartIn(after.vehicles, v), latest, minutes))
               && HistoryKept(Past(before.alerts, v), Past(after.alerts, v), StartIn(after.vehicles, v), latest)
    ensures AlertFollows(before, after, batch, minutes, latest, v)
  {
    hide Admitted, Unchanged, Reported, Past, LongEnough, StartIn, HistoryKept;
  }

  /** What a row-by-row batch does to the alerts of every vehicle. */
  ghost predicate AlertsFollow(before: System, after: System, batch: set<Event>, minutes: nat) {
    forall latest, v :: IsLatest(Admitted(before.tables, after.tables, batch), latest) ==> AlertFollows(before, after, batch, minutes, latest, v)
  }

  lemma {:induction false} BulkAlertsFollow(s: System, events: seq<Event>, batchId: int, minutes: nat)
    requires AllValid(EventSet(events)) && AtMostOneOpen(s.alerts)
    ensures AlertsFollow(s, BulkSystem(s, events, batchId, minutes), EventSet(events), minutes)
  {
    hide *;
    var after := BulkSystem(s, events, batchId, minutes);
    forall latest, v | IsLatest(Admitted(s.tables, after.tables, EventSet(events)), latest)
      ensures AlertFollows(s, after, EventSet(events), minutes, latest, v)
    {
      BulkAlertsExactly(s, events, batchId, minutes, latest, v);
    }
    AllFollow(s, after, EventSet(events), minutes);
  }

  lemma AllFollow(before: System, after: System, batch: set<Event>, minutes: nat)
    requires forall latest, v :: IsLatest(Admitted(before.tables, after.tables, batch), latest) ==> AlertFollows(before, after, batch, minutes, latest, v)
    ensures AlertsFollow(before, after, batch, minutes)
  {
    hide IsLatest, Admitted, AlertFollows;
  }

  lemma BulkAlertTable(s: System, events: seq<Event>, batchId: int, minutes: nat)
    requires AllValid(EventSet(events))
    ensures var t, batch, after := s.tables, EventSet(events), BulkSystem(s, events, batchId, minutes);
            var accepted := Accepted(t.keys, batch, BulkIds(t, batch), BulkTrips(t, batch));
            OnePerId(accepted) && after.alerts == UpdateBulkAlerts(s.alerts, after.vehicles, VehiclesOf(accepted), MaxTs(accepted), minutes)
  {
    BulkAcceptedIsCoherent(s.tables, EventSet(events));
    hide BulkIds, BulkTrips, Accepted, AllValid, OnePerId, CompletionsAgree, UpdateBulkAlerts, MaxTs;
  }

  lemma LatestIsMax(events: set<Event>, latest: int)
    requires OnePerId(events) && IsLatest(events, latest)
    ensures MaxTs(events) == Some(latest)
  {}

  lemma {:induction false} StepAt(alerts: Alerts, vehicles: Vehicles, events: set<Event>, latest: int, minutes: nat, v: string)
    requires AtMostOneOpen(alerts)
    ensures var after := UpdateBulkAlerts(alerts, vehicles, VehiclesOf(events), Some(latest), minutes);
            var mine := set e | e in events && e.vehicle == v;
            if mine == {} then Unchanged(alerts, after, v)
            else
              && (Reported(Past(after, v)) <==> LongEnough(StartIn(vehicles, v), latest, minutes))
              && HistoryKept(Past(alerts, v), Past(after, v), StartIn(vehicles, v), latest)
  {
    var mine := set e | e in events && e.vehicle == v;
    hide BulkAlertStep, HistoryKept, Reported, LongEnough;
    if mine == {} {
      forall e | e in events ensures e.vehicle != v {
        assert e !in mine;
      }
    } else {
      var e :| e in mine;
      assert v in VehiclesOf(events);
      BulkStep(Past(alerts, v), StartIn(vehicles, v), latest, minutes);
    }
  }

  /** Without an admitted event nothing changes. */
  lemma NoEventNoAlert(s: System, events: seq<Event>, batchId: int, minutes: nat)
    requires AllValid(EventSet(events)) && Admitted(s.tables, BulkSystem(s, events, batchId, minutes).tables, EventSet(events)) == {}
    ensures BulkSystem(s, events, batchId, minutes).alerts == s.alerts
  {
    BulkAdmits(s, events, batchId, minutes);
    BulkAlertTable(s, events, batchId, minutes);
    hide BulkSystem, BulkIds, BulkTrips, Accepted, AllValid, Admitted;
  }

  /* ---- the idle start a merge computes ---- */

  ghost predicate EarliestOf(times: set<int>, t: Option<int>) {
    if t.None? then times == {} else t.value in times && forall u :: u in times ==> t.value <= u
  }

  function Times(events: set<Event>): set<int> {
    set e | e in events :: e.ts
  }

  function IdleAfterAllBusy(events: set<Event>): set<Event> {
    set e | e in events && e.status == Idle && forall b :: b in events && b.status != Idle ==> b.ts < e.ts
  }

  /** The stored idle row goes on through an all-idle batch, from the earliest start known; otherwise the idle time starts at
      the first idle event after all busy ones. */
  ghost predicate MergeStart(prior: Option<StateRow>, mine: set<Event>, since: Option<int>) {
    if prior.Some? && prior.value.status == Idle && forall e :: e in mine ==> e.status == Idle then
      EarliestOf(Times(mine) + if prior.value.idleSince.Some? then {prior.value.idleSince.value} else {}, since)
    else EarliestOf(Times(IdleAfterAllBusy(mine)), since)
  }

  /** The last of the events by time, then by id. */
  ghost predicate LastOf(events: set<Event>, l: Event) {
    l in events && forall e :: e in events && e != l ==> e.ts < l.ts || (e.ts == l.ts && Text.Less(e.id, l.id))
  }

  lemma LastIsLatest(events: set<Event>, l: Event)
    requires OnePerId(events) && LastOf(events, l)
    ensures Latest(events) == l
  {
    var m := Latest(events);
    if m != l {
      Text.LessIsAsymmetric(m.id, l.id);
    }
  }

  lemma LatestIsLastOf(events: set<Event>)
    requires OnePerId(events) && events != {}
    ensures LastOf(events, Latest(events))
  {}

  lemma EarliestIsUnique(times: set<int>, a: Option<int>, b: Option<int>)
    requires EarliestOf(times, a) && EarliestOf(times, b)
    ensures a == b
  {
    if a.Some? && b.Some? {
      assert a.value in times && b.value in times;
      assert a.value <= b.value <= a.value;
    }
  }

  lemma MinIsEarliest(events: set<Event>)
    requires OnePerId(events)
    ensures EarliestOf(Times(events), MinTs(events))
  {
    if events != {} {
      var e :| e in events && e.ts == MinTs(events).value;
      assert e.ts in Times(events);
    }
  }

  /** The CASE expression computes that start. */
  lemma {:induction false} CaseIsMergeStart(prior: Option<StateRow>, mine: set<Event>, l: Event, since: Option<int>)
    requires OnePerId(mine) && l in mine && l.status == Idle && MergeStart(prior, mine, since)
    ensures IdleSince(prior, mine, l) == since
  {
    var busy, idle := BusyOf(mine), IdleOf(mine);
    var later := set e | e in idle && (MaxTs(busy).None? || e.ts > MaxTs(busy).value);
    assert OnePerId(busy) && OnePerId(idle) && OnePerId(later);
    assert busy == {} <==> forall e :: e in mine ==> e.status == Idle by {
      if busy == {} {
        forall e | e in mine ensures e.status == Idle {
          assert e !in busy;
        }
      }
    }
    AfterMaxIsAfterAll(mine, MaxTs(busy));
    hide MaxTs, MinTs;
    MinIsEarliest(later);
    if busy == {} {
      assert idle == mine;
      MinIsEarliest(idle);
    }
    if busy == {} && prior.Some? && prior.value.status == Idle {
      LeastIsEarliest(Times(mine), prior.value.idleSince, MinTs(idle), since);
    } else {
      EarliestIsUnique(Times(later), MinTs(later), since);
    }
  }

  lemma AfterMaxIsAfterAll(mine: set<Event>, latest: Option<int>)
    requires OnePerId(mine) && OnePerId(BusyOf(mine)) && latest == MaxTs(BusyOf(mine))
    ensures (set e | e in IdleOf(mine) && (latest.None? || e.ts > latest.value)) == IdleAfterAllBusy(mine)
  {
    forall e | e in IdleOf(mine) ensures (latest.None? || e.ts > latest.value) <==> (forall b :: b in mine && b.status != Idle ==> b.ts < e.ts) {
      forall b | b in mine && b.status != Idle ensures b in BusyOf(mine) {}
      if latest.Some? {
        var b :| b in BusyOf(mine) && b.ts == latest.value;
      }
    }
  }

  lemma LeastIsEarliest(times: set<int>, stored: Option<int>, first: Option<int>, since: Option<int>)
    requires EarliestOf(times, first) && EarliestOf(times + if stored.Some? then {stored.value} else {}, since)
    ensures Least(stored, first) == since
  {
    var all := times + if stored.Some? then {stored.value} else {};
    if first.Some? {
      assert first.value in times;
    }
    if stored.Some? {
      assert stored.value in all;
    }
    assert EarliestOf(all, Least(stored, first));
    EarliestIsUnique(all, Least(stored, first), since);
  }

  /* ---- vehicle rows ---- */

  predicate Later(e: Event, row: StateRow) {
    row.ts < e.ts || (row.ts == e.ts && Text.Less(row.eventId, e.id))
  }

  predicate Skipped(prior: Option<StateRow>, e: Event) {
    prior.Some? && !Later(e, prior.value)
  }

  /** Nothing later arrived: the row stays. Otherwise it shows the last of the new events. */
  ghost predicate ShowsNewest(prior: Option<StateRow>, mine: set<Event>, after: Option<StateRow>) {
    if forall e :: e in mine ==> Skipped(prior, e) then after == prior
    else after.Some? && exists l :: LastOf(mine, l) && ShowsEvent(after.value, l)
  }

  predicate ShowsEvent(row: StateRow, e: Event) {
    row.zone == e.zone && row.status == e.status && row.ts == e.ts && row.eventId == e.id
  }

  lemma {:induction false} LatestDecides(prior: StateRow, mine: set<Event>)
    requires OnePerId(mine) && mine != {}
    ensures Newer(Latest(mine), prior) <==> exists e :: e in mine && Later(e, prior)
  {
    var l := Latest(mine);
    LatestIsLastOf(mine);
    if e :| e in mine && Later(e, prior) && e != l && prior.ts == e.ts == l.ts {
      Text.LessIsTransitive(prior.eventId, e.id, l.id);
    }
  }

  /** The guarded upsert of one vehicle: its row shows the newest event, and when it is replaced its idle start is the one above. */
  lemma {:induction false} UpsertShowsNewest(prior: Option<StateRow>, mine: set<Event>, since: Option<int>)
    requires OnePerId(mine) && MergeStart(prior, mine, since)
    ensures var after := SetBased(prior, mine);
            && ShowsNewest(prior, mine, after)
            && (after != prior ==> after.Some? && after.value.idleSince == if after.value.status == Idle then since else None)
  {
    if mine != {} {
      var l := Latest(mine);
      LatestIsLastOf(mine);
      if prior.Some? {
        LatestDecides(prior.value, mine);
      }
      if l.status == Idle {
        CaseIsMergeStart(prior, mine, l, since);
      }
      hide Latest, IdleSince, MergeStart, Text.Less;
      if prior.None? || Newer(l, prior.value) {
        assert LastOf(mine, l) && ShowsEvent(SetBased(prior, mine).value, l);
      }
    }
  }

  /** The stored row of a vehicle, if the event it shows is still live among everything delivered. */
  ghost function StillShown(vehicles: Vehicles, all: set<Event>, v: string): Option<StateRow> {
    if v in vehicles && exists e :: Live(all, e) && e.id == vehicles[v].eventId then Some(vehicles[v]) else None
  }

  function Stored(vehicles: Vehicles, v: string): Option<StateRow> {
    if v in vehicles then Some(vehicles[v]) else None
  }

  function Mine(before: Tables, after: Tables, batch: set<Event>, v: string): set<Event> {
    set e | e in Admitted(before, after, batch) && e.vehicle == v
  }

  /** A row is withdrawn exactly if the event it shows is no longer live. */
  lemma {:induction false} KeptExactly(
    vehicles: Vehicles, t: Tables, seen: set<Event>, batch: set<Event>, ids: set<string>, trips: set<string>, v: string)
    requires Mirrors(t, seen) && Blocks(t, seen, batch, ids, trips) && AllValid(seen) && VehiclesMirror(vehicles, seen)
    ensures Stored(WithoutDiscredited(vehicles, t.keys, ids, trips), v) == StillShown(vehicles, seen + batch, v)
  {
    if v in vehicles {
      assert ShowsLive(seen, v, vehicles[v]);
      var e :| Live(seen, e) && e.vehicle == v && Shows(vehicles[v], e);
      LiveIsKeyed(t, seen, e);
      SurvivesExactlyIfUnblocked(t, seen, batch, ids, trips, e);
      OnlyLiveOfId(seen, batch, e);
      hide *;
      ShownStays(vehicles, t.keys, ids, trips, v, e);
      assert vehicles[v].eventId == e.id by { ShowsItsId(vehicles[v], e); }
      StillShownMeans(vehicles, seen + batch, v, e);
    } else {
      hide Live, Mirrors, Blocks;
    }
  }

  lemma ShowsItsId(row: StateRow, e: Event)
    requires Shows(row, e)
    ensures row.eventId == e.id
  {}

  lemma OnlyLiveOfId(seen: set<Event>, batch: set<Event>, e: Event)
    requires Live(seen, e)
    ensures forall f :: Live(seen + batch, f) && f.id == e.id ==> f == e
  {
    forall f | Live(seen + batch, f) && f.id == e.id ensures f == e {
      assert e in seen + batch && f in seen + batch && !BadId(seen + batch, f.id);
    }
  }

  lemma ShownStays(vehicles: Vehicles, keys: Keys, ids: set<string>, trips: set<string>, v: string, e: Event)
    requires v in vehicles && Shows(vehicles[v], e) && e.id in keys && keys[e.id].trip == e.trip
    ensures Stored(WithoutDiscredited(vehicles, keys, ids, trips), v) == if Rejects(ids, trips, e) then None else Some(vehicles[v])
  {}

  lemma StillShownMeans(vehicles: Vehicles, all: set<Event>, v: string, e: Event)
    requires v in vehicles && vehicles[v].eventId == e.id && forall f :: Live(all, f) && f.id == e.id ==> f == e
    ensures StillShown(vehicles, all, v) == if Live(all, e) then Some(vehicles[v]) else None
  {
    hide Live;
  }

  /** After a merge, whatever the batch contains: a vehicle keeps its row while the event it shows is live and nothing later
      is admitted; otherwise its row shows the last admitted event of the vehicle, with the idle start of that event. */
  lemma {:induction false} MergeVehiclesExactly(
    s: System, seen: set<Event>, rows: Topic, batchId: int, minutes: nat, v: string, since: Option<int>)
    requires Mirrors(s.tables, seen) && AllValid(seen) && AllValid(rows.Values) && VehiclesMirror(s.vehicles, seen)
    requires MergeStart(StillShown(s.vehicles, seen + rows.Values, v),
                        Mine(s.tables, MergeSystem(s, rows, batchId, minutes).tables, rows.Values, v), since)
    ensures var after := MergeSystem(s, rows, batchId, minutes);
            var prior, mine := StillShown(s.vehicles, seen + rows.Values, v), Mine(s.tables, after.tables, rows.Values, v);
            var row := Stored(after.vehicles, v);
            && ShowsNewest(prior, mine, row)
            && (row != prior ==> row.Some? && row.value.idleSince == if row.value.status == Idle then since else None)
  {
    var t, batch := s.tables, rows.Values;
    var ids, trips := ConflictIds(t, batch), BadTrips(t, batch);
    StageBlocks(t, seen, batch);
    MergeAdmits(s, rows, batchId, minutes);
    KeptExactly(s.vehicles, t, seen, batch, ids, trips, v);
    AcceptedIsCoherent(t, batch);
    var accepted, kept := Accepted(t.keys, batch, ids, trips), WithoutDiscredited(s.vehicles, t.keys, ids, trips);
    assert MergeSystem(s, rows, batchId, minutes).vehicles == UpsertCandidates(kept, Candidates(kept, accepted)) by {
      MergeTables(s, rows, batchId, minutes);
    }
    hide *;
    CandidateOf(kept, accepted, v);
    MineIsOfVehicle(t, MergeSystem(s, rows, batchId, minutes).tables, batch, v);
    StoredIsRowOf(kept, v);
    StoredIsRowOf(UpsertCandidates(kept, Candidates(kept, accepted)), v);
    OfVehicleIsCoherent(accepted, v);
    UpsertShowsNewest(RowOf(kept, v), OfVehicle(accepted, v), since);
  }

  lemma MergeTables(s: System, rows: Topic, batchId: int, minutes: nat)
    ensures var t, batch, after := s.tables, rows.Values, MergeSystem(s, rows, batchId, minutes);
            var ids, trips := ConflictIds(t, batch), BadTrips(t, batch);
            var accepted, kept := Accepted(t.keys, batch, ids, trips), WithoutDiscredited(s.vehicles, t.keys, ids, trips);
            && OnePerId(accepted)
            && after.vehicles == UpsertCandidates(kept, Candidates(kept, accepted))
            && after.alerts == UpdateAlerts(s.alerts, Candidates(kept, accepted), MaxTs(accepted), minutes)
            && after.windows == Correct(s.windows, Affected(t.contributions, batch, ids, trips), after.tables.contributions)
  {
    AcceptedIsCoherent(s.tables, rows.Values);
    hide ConflictIds, BadTrips, Accepted, OnePerId, CompletionsAgree, UpsertCandidates, Candidates, UpdateAlerts, Correct, Affected,
      WithoutDiscredited, MaxTs;
  }

  lemma MineIsOfVehicle(before: Tables, after: Tables, batch: set<Event>, v: string)
    ensures Mine(before, after, batch, v) == OfVehicle(Admitted(before, after, batch), v)
  {
    hide Admitted;
  }

  lemma StoredIsRowOf(vehicles: Vehicles, v: string)
    ensures Stored(vehicles, v) == RowOf(vehicles, v)
  {}

  lemma OfVehicleIsCoherent(events: set<Event>, v: string)
    requires OnePerId(events)
    ensures OnePerId(OfVehicle(events, v))
  {}

  /** The alert of every vehicle with an admitted event after a merge: open exactly if the last of these events is idle and
      the vehicle was reported before or its idle start lies long enough before the latest admitted event. Every other
      vehicle's history is unchanged. */
  lemma {:induction false} MergeAlertsExactly(
    s: System, seen: set<Event>, rows: Topic, batchId: int, minutes: nat, latest: int, v: string, l: Event, since: Option<int>)
    requires Mirrors(s.tables, seen) && AllValid(seen) && AllValid(rows.Values) && VehiclesMirror(s.vehicles, seen)
    requires IsLatest(Admitted(s.tables, MergeSystem(s, rows, batchId, minutes).tables, rows.Values), latest)
    requires var mine := Mine(s.tables, MergeSystem(s, rows, batchId, minutes).tables, rows.Values, v);
             mine != {} ==> LastOf(mine, l) && MergeStart(StillShown(s.vehicles, seen + rows.Values, v), mine, since)
    ensures var after := MergeSystem(s, rows, batchId, minutes);
            if Mine(s.tables, after.tables, rows.Values, v) == {} then Unchanged(s.alerts, after.alerts, v)
            else
              && (Reported(Past(after.alerts, v)) <==>
                    l.status == Idle && (Reported(Past(s.alerts, v)) || LongEnough(since, latest, minutes)))
              && HistoryKept(Past(s.alerts, v), Past(after.alerts, v), since, latest)
  {
    var t, batch := s.tables, rows.Values;
    var ids, trips := ConflictIds(t, batch), BadTrips(t, batch);
    StageBlocks(t, seen, batch);
    MergeAdmits(s, rows, batchId, minutes);
    KeptExactly(s.vehicles, t, seen, batch, ids, trips, v);
    MergeTables(s, rows, batchId, minutes);
    hide *;
    var accepted, kept := Accepted(t.keys, batch, ids, trips), WithoutDiscredited(s.vehicles, t.keys, ids, trips);
    MineIsOfVehicle(t, MergeSystem(s, rows, batchId, minutes).tables, batch, v);
    StoredIsRowOf(kept, v);
    LatestIsMax(accepted, latest);
    CandidateAlert(s.alerts, kept, accepted, latest, minutes, v, l, since);
  }

  lemma {:induction false} CandidateAlert(
    alerts: Alerts, kept: Vehicles, accepted: set<Event>, latest: int, minutes: nat, v: string, l: Event, since: Option<int>)
    requires OnePerId(accepted)
    requires OfVehicle(accepted, v) != {} ==> LastOf(OfVehicle(accepted, v), l) && MergeStart(RowOf(kept, v), OfVehicle(accepted, v), since)
    ensures var after := UpdateAlerts(alerts, Candidates(kept, accepted), Some(latest), minutes);
            if OfVehicle(accepted, v) == {} then Unchanged(alerts, after, v)
            else
              && (Reported(Past(after, v)) <==> l.status == Idle && (Reported(Past(alerts, v)) || LongEnough(since, latest, minutes)))
              && HistoryKept(Past(alerts, v), Past(after, v), since, latest)
  {
    var mine := OfVehicle(accepted, v);
    VehicleHasEvents(accepted);
    assert v in Candidates(kept, accepted) <==> mine != {};
    if mine != {} {
      var c := Candidate(RowOf(kept, v), mine);
      assert Candidates(kept, accepted)[v] == c;
      LastIsLatest(mine, l);
      if l.status == Idle {
        CaseIsMergeStart(RowOf(kept, v), mine, l, since);
      }
      assert c.status == l.status && c.idleSince == if l.status == Idle then since else None by {
        hide Latest;
      }
      hide *;
      MergeStep(Past(alerts, v), c, since, latest, minutes);
      AlertsAt(alerts, Candidates(kept, accepted), latest, minutes, v);
    }
  }

  lemma AlertsAt(alerts: Alerts, candidates: Vehicles, latest: int, minutes: nat, v: string)
    requires v in candidates
    ensures Past(UpdateAlerts(alerts, candidates, Some(latest), minutes), v) == AlertStep(Past(alerts, v), candidates[v], latest, minutes)
  {
    hide AlertStep;
  }

  lemma {:induction false} MergeStep(history: seq<Alert>, c: StateRow, since: Option<int>, latest: int, minutes: nat)
    requires c.idleSince == if c.status == Idle then since else None
    ensures var after := AlertStep(history, c, latest, minutes);
            && (Reported(after) <==> c.status == Idle && (Reported(history) || LongEnough(since, latest, minutes)))
            && HistoryKept(history, after, since, latest)
  {
    var after := AlertStep(history, c, latest, minutes);
    assert HasOpen(history) <==> Reported(history);
    if c.status == Idle {
      if Reported(history) {
        var i :| 0 <= i < |history| && history[i].open;
        assert after[i].open;
      } else if LongEnough(since, latest, minutes) {
        assert after[|history|].open;
      }
    }
  }

  /** The start above always exists, and so does the last of some events. */
  lemma StartExists(prior: Option<StateRow>, mine: set<Event>) returns (since: Option<int>)
    requires OnePerId(mine)
    ensures MergeStart(prior, mine, since)
  {
    MinIsEarliest(mine);
    assert OnePerId(IdleAfterAllBusy(mine));
    MinIsEarliest(IdleAfterAllBusy(mine));
    if prior.Some? && prior.value.status == Idle && forall e :: e in mine ==> e.status == Idle {
      var first, stored := MinTs(mine), prior.value.idleSince;
      since := if stored.None? || (first.Some? && first.value < stored.value) then first else stored;
    } else {
      since := MinTs(IdleAfterAllBusy(mine));
    }
  }

  /* ---- the sequential form ---- */

  predicate Precedes(a: Event, b: Event) {
    a.ts < b.ts || (a.ts == b.ts && Text.Less(a.id, b.id))
  }

  /** The first of the idle events that come after all busy ones. */
  ghost predicate OpensLastRun(events: set<Event>, f: Event) {
    && f in events && f.status == Idle
    && (forall b :: b in events && b.status != Idle ==> Precedes(b, f))
    && (forall g :: g in events && g.status == Idle && g != f && AfterAllBusy(events, g) ==> Precedes(f, g))
  }

  ghost predicate AfterAllBusy(events: set<Event>, g: Event) {
    forall b :: b in events && b.status != Idle ==> Precedes(b, g)
  }

  function NewOnes(prior: Option<StateRow>, mine: set<Event>): set<Event> {
    set e | e in mine && !Skipped(prior, e)
  }

  /** Late events are skipped. An all-idle rest continues the stored idle row; otherwise the idle time starts with the run. */
  ghost predicate FoldStart(prior: Option<StateRow>, mine: set<Event>, since: Option<int>) {
    if prior.Some? && prior.value.status == Idle && forall e :: e in NewOnes(prior, mine) ==> e.status == Idle then since == prior.value.idleSince
    else exists f :: OpensLastRun(NewOnes(prior, mine), f) && since == Some(f.ts)
  }

  lemma {:induction false} FoldShowsNewest(prior: Option<StateRow>, events: seq<Event>)
    requires Sorted(events) && OnePerId(EventSet(events))
    ensures var after := Fold(prior, events);
            && ShowsNewest(prior, EventSet(events), after)
            && (after != prior ==> after.Some? && if after.value.status == Idle then FoldStart(prior, EventSet(events), after.value.idleSince)
                                                  else after.value.idleSince.None?)
  {
    var n, s, mine := LateCount(prior, events), RunStart(events), EventSet(events);
    FoldClosedForm(prior, events);
    LateArePrefix(prior, events);
    SortedHasOnePerId(events);
    RunShape(events);
    NewOnesAreSuffix(prior, events, n);
    hide *;
    if n < |events| {
      LastInOrder(events);
      SuffixIsNew(prior, events, n);
      if s < |events| {
        FoldStartsThere(prior, events, n, s);
      }
      NewRowShows(prior, events, Fold(prior, events));
    } else {
      NothingNew(prior, events);
    }
  }

  lemma NothingNew(prior: Option<StateRow>, events: seq<Event>)
    requires forall i :: 0 <= i < |events| ==> Skipped(prior, events[i])
    ensures ShowsNewest(prior, EventSet(events), prior)
  {
    assert forall e :: e in EventSet(events) ==> Skipped(prior, e);
  }

  lemma SuffixIsNew(prior: Option<StateRow>, events: seq<Event>, n: nat)
    requires n < |events| && forall i :: n <= i < |events| ==> events[i] in NewOnes(prior, EventSet(events))
    ensures events[|events| - 1] in NewOnes(prior, EventSet(events))
  {}

  lemma NewRowShows(prior: Option<StateRow>, events: seq<Event>, after: Option<StateRow>)
    requires events != [] && LastOf(EventSet(events), events[|events| - 1]) && events[|events| - 1] in NewOnes(prior, EventSet(events))
    requires after.Some? && ShowsEvent(after.value, events[|events| - 1])
    ensures ShowsNewest(prior, EventSet(events), after)
  {
    hide LastOf;
    var l := events[|events| - 1];
    assert l in EventSet(events) && !Skipped(prior, l);
  }

  lemma {:induction false} FoldStartsThere(prior: Option<StateRow>, events: seq<Event>, n: nat, s: nat)
    requires Sorted(events) && n < |events| && s < |events|
    requires forall k :: s <= k < |events| ==> events[k].status == Idle
    requires s > 0 ==> events[s - 1].status != Idle
    requires forall i :: n <= i < |events| ==> events[i] in NewOnes(prior, EventSet(events))
    requires forall e :: e in NewOnes(prior, EventSet(events)) ==> exists i :: n <= i < |events| && events[i] == e
    ensures FoldStart(prior, EventSet(events),
                      if s <= n && prior.Some? && prior.value.status == Idle then prior.value.idleSince else Some(events[if s > n then s else n].ts))
  {
    var newer := NewOnes(prior, EventSet(events));
    RunOpens(events, newer, n, s);
    hide NewOnes, OpensLastRun, Sorted;
    if s <= n {
      assert forall e :: e in newer ==> e.status == Idle;
    } else {
      assert events[s - 1] in newer;
    }
  }

  lemma LastInOrder(events: seq<Event>)
    requires events != [] && Sorted(events) && OnePerId(EventSet(events))
    ensures LastOf(EventSet(events), events[|events| - 1])
  {
    var l := events[|events| - 1];
    assert l in EventSet(events);
    forall e | e in EventSet(events) && e != l ensures Before(e, l) {
      var i :| 0 <= i < |events| && events[i] == e;
    }
  }

  lemma NewOnesAreSuffix(prior: Option<StateRow>, events: seq<Event>, n: nat)
    requires n <= |events| && forall i :: 0 <= i < |events| ==> (i < n <==> IsLate(prior, events[i]))
    ensures forall i :: n <= i < |events| ==> events[i] in NewOnes(prior, EventSet(events))
    ensures forall e :: e in NewOnes(prior, EventSet(events)) ==> exists i :: n <= i < |events| && events[i] == e
    ensures forall i :: 0 <= i < n ==> Skipped(prior, events[i])
  {
    hide *;
    forall i | 0 <= i < |events| ensures i < n <==> Skipped(prior, events[i]) {
      SkippedIsLate(prior, events[i]);
    }
    forall e ensures e in NewOnes(prior, EventSet(events)) <==> e in events && !Skipped(prior, e) {
      NewOnesMembers(prior, events, e);
    }
    forall e | e in NewOnes(prior, EventSet(events)) ensures exists i :: n <= i < |events| && events[i] == e {
      var i :| 0 <= i < |events| && events[i] == e;
    }
  }

  lemma SkippedIsLate(prior: Option<StateRow>, e: Event)
    ensures Skipped(prior, e) <==> IsLate(prior, e)
  {}

  lemma NewOnesMembers(prior: Option<StateRow>, events: seq<Event>, e: Event)
    ensures e in NewOnes(prior, EventSet(events)) <==> e in events && !Skipped(prior, e)
  {
    hide Skipped;
  }

  lemma {:induction false} RunOpens(events: seq<Event>, newer: set<Event>, n: nat, s: nat)
    requires Sorted(events) && n < |events| && s < |events|
    requires forall k :: s <= k < |events| ==> events[k].status == Idle
    requires s > 0 ==> events[s - 1].status != Idle
    requires forall i :: n <= i < |events| ==> events[i] in newer
    requires forall e :: e in newer ==> exists i :: n <= i < |events| && events[i] == e
    ensures OpensLastRun(newer, events[if s > n then s else n])
  {
    var m := if s > n then s else n;
    var f := events[m];
    forall b | b in newer && b.status != Idle ensures Precedes(b, f) {
      var j :| n <= j < |events| && events[j] == b;
      assert j < m && Before(events[j], events[m]);
    }
    forall g | g in newer && g.status == Idle && g != f && AfterAllBusy(newer, g) ensures Precedes(f, g) {
      var j :| n <= j < |events| && events[j] == g;
      if j < m {
        var b := events[s - 1];
        assert b in newer && Precedes(b, g) && Before(g, b);
        BeforeIsTotal(b, g);
      }
      assert j > m && Before(f, g);
    }
  }

  /** After a row-by-row batch whose empty trip id, if any, does no harm: rows are kept and replaced by the same rule, and
      the idle start is the one of the sequence. */
  lemma {:induction false} BulkVehiclesExactly(s: System, seen: set<Event>, events: seq<Event>, batchId: int, minutes: nat, v: string)
    requires Mirrors(s.tables, seen) && AllValid(seen) && AllValid(EventSet(events)) && VehiclesMirror(s.vehicles, seen)
    requires EmptyTripHarmless(s.tables, EventSet(events))
    ensures var after := BulkSystem(s, events, batchId, minutes);
            var prior, mine := StillShown(s.vehicles, seen + EventSet(events), v), Mine(s.tables, after.tables, EventSet(events), v);
            var row := Stored(after.vehicles, v);
            && ShowsNewest(prior, mine, row)
            && (row != prior ==> row.Some? && if row.value.status == Idle then FoldStart(prior, mine, row.value.idleSince)
                                              else row.value.idleSince.None?)
  {
    var t, batch := s.tables, EventSet(events);
    hide *;
    StageBlocks(t, seen, batch);
    BulkAdmits(s, events, batchId, minutes);
    KeptExactly(s.vehicles, t, seen, batch, ConflictIds(t, batch), BadTrips(t, batch), v);
    SameWithdrawals(s.vehicles, t, seen, batch);
    BulkVehicleTable(s, events, batchId, minutes);
    var kept := WithoutDiscredited(s.vehicles, t.keys, BulkIds(t, batch), BulkTrips(t, batch));
    var accepted := Accepted(t.keys, batch, BulkIds(t, batch), BulkTrips(t, batch));
    var sorted := SortEvents(accepted);
    FoldIsPerVehicle(kept, sorted, v);
    FilterIsSorted(sorted, v);
    MineIsOfVehicle(t, BulkSystem(s, events, batchId, minutes).tables, batch, v);
    StoredIsRowOf(kept, v);
    StoredIsRowOf(FoldVehicles(kept, sorted), v);
    OfVehicleIsCoherent(accepted, v);
    FilterIsOfVehicle(sorted, accepted, v);
    FoldShowsNewest(RowOf(kept, v), Filter(sorted, v));
  }

  lemma FilterIsOfVehicle(sorted: seq<Event>, accepted: set<Event>, v: string)
    requires EventSet(sorted) == accepted
    ensures EventSet(Filter(sorted, v)) == OfVehicle(accepted, v)
  {}

  lemma BulkVehicleTable(s: System, events: seq<Event>, batchId: int, minutes: nat)
    requires AllValid(EventSet(events))
    ensures var t, batch, after := s.tables, EventSet(events), BulkSystem(s, events, batchId, minutes);
            var ids, trips := BulkIds(t, batch), BulkTrips(t, batch);
            var accepted := Accepted(t.keys, batch, ids, trips);
            && OnePerId(accepted)
            && after.vehicles == FoldVehicles(WithoutDiscredited(s.vehicles, t.keys, ids, trips), SortEvents(accepted))
            && after.windows == Correct(s.windows, Affected(t.contributions, batch, ids, trips), after.tables.contributions)
  {
    var t, batch := s.tables, EventSet(events);
    BulkAcceptedIsCoherent(t, batch);
    BulkBlockingMeans(s, events, batchId, minutes, BulkIds(t, batch), BulkTrips(t, batch));
    assert BulkSystem(s, events, batchId, minutes) == BulkBlocking(s, events, batchId, minutes, BulkIds(t, batch), BulkTrips(t, batch));
    hide *;
  }

  /* ---- windows ---- */

  /** A contribution of the window disappears, or a delivered event that lies in it is not live. */
  ghost predicate Touched(before: Tables, after: Tables, batch: set<Event>, all: set<Event>, w: WindowKey) {
    || (exists k :: k in before.contributions && k !in after.contributions
                    && before.contributions[k].window == w.start && before.contributions[k].zone == w.zone)
    || (exists e :: e in batch && !Live(all, e) && WindowOf(e.ts) == w.start && e.zone == w.zone)
  }

  /** Touched windows get the aggregate over the present contributions; every other row, Spark's included, stays as it was. */
  ghost predicate CorrectsTouched(before: System, after: System, batch: set<Event>, all: set<Event>, w: WindowKey) {
    if Touched(before.tables, after.tables, batch, all, w) then w in after.windows && after.windows[w] == Aggregate(after.tables.contributions, w)
    else (w in after.windows <==> w in before.windows) && (w in after.windows ==> after.windows[w] == before.windows[w])
  }

  lemma {:induction false} AffectedIsTouched(
    t: Tables, after: Tables, seen: set<Event>, batch: set<Event>, ids: set<string>, trips: set<string>, accepted: set<Event>, w: WindowKey)
    requires ContributionsMirror(t, seen) && OnePerId(accepted) && forall e :: e in accepted ==> e.id !in t.keys
    requires after.contributions == NewContributions(accepted) + WithoutEvents(t.contributions, ids, trips)
    requires forall e :: e in batch ==> (Live(seen + batch, e) <==> !Rejects(ids, trips, e))
    ensures w in Affected(t.contributions, batch, ids, trips) <==> Touched(t, after, batch, seen + batch, w)
  {
    hide Live;
    var cs := t.contributions;
    forall k | k in cs ensures k !in after.contributions <==> k in ids || TripIn(cs[k].trip, trips) {
      assert k in t.keys;
    }
    assert w in Affected(cs, batch, ids, trips) <==>
           || (exists k :: k in cs && (k in ids || TripIn(cs[k].trip, trips)) && WindowKey(cs[k].window, cs[k].zone) == w)
           || (exists e :: e in batch && Rejects(ids, trips, e) && WindowKey(WindowOf(e.ts), e.zone) == w);
  }

  /** Each merge corrects exactly the windows that lose a contribution or contain a delivered event that is not live. */
  lemma {:induction false} MergeWindowsExactly(s: System, seen: set<Event>, rows: Topic, batchId: int, minutes: nat, w: WindowKey)
    requires Mirrors(s.tables, seen) && AllValid(seen) && AllValid(rows.Values)
    ensures CorrectsTouched(s, MergeSystem(s, rows, batchId, minutes), rows.Values, seen + rows.Values, w)
  {
    var t, batch, after := s.tables, rows.Values, MergeSystem(s, rows, batchId, minutes);
    var ids, trips := ConflictIds(t, batch), BadTrips(t, batch);
    StageBlocks(t, seen, batch);
    forall e | e in batch ensures Live(seen + batch, e) <==> !Rejects(ids, trips, e) {
      DeliveredIsLiveExactlyIfUnrejected(t, seen, batch, ids, trips, e);
    }
    MergeTables(s, rows, batchId, minutes);
    MergeIsAfter(t, rows, batchId);
    AcceptedIsCoherent(t, batch);
    MergeLedgers(s, rows, batchId, minutes);
    assert ContributionsMirror(t, seen) by { MirrorsAll(t, seen); }
    hide *;
    AfterContributions(t, batch, ids, trips, Merge(t, rows, batchId).conflicts, batchId);
    AffectedIsTouched(t, after.tables, seen, batch, ids, trips, Accepted(t.keys, batch, ids, trips), w);
    CorrectedMeans(s, after, batch, seen + batch, Affected(t.contributions, batch, ids, trips), w);
  }

  lemma MirrorsAll(t: Tables, seen: set<Event>)
    requires Mirrors(t, seen)
    ensures ContributionsMirror(t, seen)
  {
    hide KeysMirror, ConflictsMirror, ContributionsMirror, TripsMirror;
  }

  lemma MergeLedgers(s: System, rows: Topic, batchId: int, minutes: nat)
    ensures MergeSystem(s, rows, batchId, minutes).tables == Merge(s.tables, rows, batchId)
  {
    AcceptedIsCoherent(s.tables, rows.Values);
    hide ConflictIds, BadTrips, Accepted, After, OnePerId, CompletionsAgree, RecordConflicts;
  }

  lemma AfterContributions(t: Tables, batch: set<Event>, ids: set<string>, trips: set<string>, conflicts: Conflicts, batchId: int)
    requires OnePerId(Accepted(t.keys, batch, ids, trips)) && CompletionsAgree(Accepted(t.keys, batch, ids, trips))
    ensures var accepted := Accepted(t.keys, batch, ids, trips);
            && (forall e :: e in accepted ==> e.id !in t.keys)
            && After(t, batch, ids, trips, conflicts, batchId).contributions == NewContributions(accepted) + WithoutEvents(t.contributions, ids, trips)
  {
    hide Rejects, OnePerId, CompletionsAgree;
  }

  lemma {:induction false} BulkWindowsExactly(s: System, seen: set<Event>, events: seq<Event>, batchId: int, minutes: nat, w: WindowKey)
    requires Mirrors(s.tables, seen) && AllValid(seen) && AllValid(EventSet(events)) && EmptyTripHarmless(s.tables, EventSet(events))
    ensures CorrectsTouched(s, BulkSystem(s, events, batchId, minutes), EventSet(events), seen + EventSet(events), w)
  {
    var t, batch, after := s.tables, EventSet(events), BulkSystem(s, events, batchId, minutes);
    var ids, trips := BulkIds(t, batch), BulkTrips(t, batch);
    StageBlocks(t, seen, batch);
    SameRejections(t, batch);
    forall e | e in batch ensures Live(seen + batch, e) <==> !Rejects(ids, trips, e) {
      DeliveredIsLiveExactlyIfUnrejected(t, seen, batch, ConflictIds(t, batch), BadTrips(t, batch), e);
    }
    BulkVehicleTable(s, events, batchId, minutes);
    BulkAcceptedIsCoherent(t, batch);
    BulkBlockingMeans(s, events, batchId, minutes, ids, trips);
    assert after == BulkBlocking(s, events, batchId, minutes, ids, trips);
    assert ContributionsMirror(t, seen) by { MirrorsAll(t, seen); }
    hide *;
    AcceptedAreNew(t, batch, ids, trips);
    AffectedIsTouched(t, after.tables, seen, batch, ids, trips, Accepted(t.keys, batch, ids, trips), w);
    CorrectedMeans(s, after, batch, seen + batch, Affected(t.contributions, batch, ids, trips), w);
  }

  lemma AcceptedAreNew(t: Tables, batch: set<Event>, ids: set<string>, trips: set<string>)
    ensures forall e :: e in Accepted(t.keys, batch, ids, trips) ==> e.id !in t.keys
  {}

  lemma CorrectedMeans(s: System, after: System, batch: set<Event>, all: set<Event>, affected: set<WindowKey>, w: WindowKey)
    requires w in affected <==> Touched(s.tables, after.tables, batch, all, w)
    requires after.windows == Correct(s.windows, affected, after.tables.contributions)
    ensures CorrectsTouched(s, after, batch, all, w)
  {
    hide Touched, Aggregate;
  }

  /** When nothing hangs on an empty trip id both forms reject the same events. */
  lemma SameRejections(t: Tables, batch: set<Event>)
    requires AllValid(batch) && EmptyTripHarmless(t, batch)
    ensures forall e :: e in batch ==> (Rejects(BulkIds(t, batch), BulkTrips(t, batch), e) <==> Rejects(ConflictIds(t, batch), BadTrips(t, batch), e))
  {
    BulkIdsBetween(t, batch);
    BulkSetsExceedByRecorded(t, batch);
    StageCoversRecorded(t, batch);
    hide ConflictIds, BadTrips, BulkIds, BulkTrips, ConflictedIds, BlockedTrips, AllValid;
  }

  /* ---- identity rows ---- */

  /** Admitted events get an identity row with their own time, vehicle and trip, in the name of the batch; others stay. */
  ghost predicate KeysAdmitted(before: Tables, after: Tables, batch: set<Event>, batchId: int) {
    && (forall k :: k in before.keys ==> k in after.keys && after.keys[k] == before.keys[k])
    && (forall k :: k in after.keys && k !in before.keys ==> exists e :: e in Admitted(before, after, batch) && e.id == k)
    && (forall e :: e in Admitted(before, after, batch) ==>
          var row := after.keys[e.id];
          row.fingerprint == e && row.ts == e.ts && row.vehicle == e.vehicle && row.trip == e.trip && row.batch == batchId)
  }

  lemma {:induction false} AfterKeys(t: Tables, batch: set<Event>, ids: set<string>, trips: set<string>, conflicts: Conflicts, batchId: int)
    requires OnePerId(Accepted(t.keys, batch, ids, trips)) && CompletionsAgree(Accepted(t.keys, batch, ids, trips))
    requires forall a, b :: a in batch && b in batch && a.id == b.id && a != b ==> a.id in ids
    ensures KeysAdmitted(t, After(t, batch, ids, trips, conflicts, batchId), batch, batchId)
  {
    var accepted, after := Accepted(t.keys, batch, ids, trips), After(t, batch, ids, trips, conflicts, batchId);
    AdmittedAreAccepted(t, batch, ids, trips, conflicts, batchId);
    AcceptedAreNew(t, batch, ids, trips);
    assert after.keys == NewKeys(accepted, batchId) + t.keys by {
      hide Accepted, NewKeys, OnePerId, CompletionsAgree;
    }
    hide *;
    AddedKeys(accepted, t.keys, batchId);
    KeysAre(t, after, batch, accepted, batchId);
  }

  lemma AddedKeys(accepted: set<Event>, keys: Keys, batchId: int)
    requires OnePerId(accepted) && forall e :: e in accepted ==> e.id !in keys
    ensures var all := NewKeys(accepted, batchId) + keys;
            && (forall k :: k in keys ==> k in all && all[k] == keys[k])
            && (forall k :: k in all && k !in keys ==> exists e :: e in accepted && e.id == k)
            && (forall e :: e in accepted ==> e.id in all && all[e.id] == KeyRow(e, e.ts, e.vehicle, e.trip, batchId))
  {
    var added := NewKeys(accepted, batchId);
    forall e | e in accepted ensures e.id in added && added[e.id] == KeyRow(e, e.ts, e.vehicle, e.trip, batchId) {}
  }

  lemma KeysAre(t: Tables, after: Tables, batch: set<Event>, accepted: set<Event>, batchId: int)
    requires Admitted(t, after, batch) == accepted
    requires forall k :: k in t.keys ==> k in after.keys && after.keys[k] == t.keys[k]
    requires forall k :: k in after.keys && k !in t.keys ==> exists e :: e in accepted && e.id == k
    requires forall e :: e in accepted ==> e.id in after.keys && after.keys[e.id] == KeyRow(e, e.ts, e.vehicle, e.trip, batchId)
    ensures KeysAdmitted(t, after, batch, batchId)
  {
    hide Admitted;
  }

  lemma {:induction false} MergeKeys(s: System, rows: Topic, batchId: int, minutes: nat)
    ensures KeysAdmitted(s.tables, MergeSystem(s, rows, batchId, minutes).tables, rows.Values, batchId)
  {
    var t, batch := s.tables, rows.Values;
    var ids, trips := ConflictIds(t, batch), BadTrips(t, batch);
    AcceptedIsCoherent(t, batch);
    assert forall a, b :: a in batch && b in batch && a.id == b.id && a != b ==> a.id in ids;
    hide ConflictIds, BadTrips, Accepted, After, OnePerId, CompletionsAgree, KeysAdmitted;
    AfterKeys(t, batch, ids, trips, RecordConflicts(t, rows, batchId, ids, trips), batchId);
  }

  lemma {:induction false} BulkKeys(s: System, events: seq<Event>, batchId: int, minutes: nat)
    requires AllValid(EventSet(events))
    ensures KeysAdmitted(s.tables, BulkSystem(s, events, batchId, minutes).tables, EventSet(events), batchId)
  {
    var t, batch := s.tables, EventSet(events);
    var ids, trips := BulkIds(t, batch), BulkTrips(t, batch);
    BulkAcceptedIsCoherent(t, batch);
    assert forall a, b :: a in batch && b in batch && a.id == b.id && a != b ==> a.id in ids;
    hide BulkIds, BulkTrips, Accepted, After, OnePerId, CompletionsAgree, AllValid, KeysAdmitted;
    AfterKeys(t, batch, ids, trips, Rejected(t, events, batchId, ids, trips) + t.conflicts, batchId);
  }
}
