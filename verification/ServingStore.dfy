/** The serving database as mutable tables, with the statements run in the order of the source. */
module ServingStore {
  import opened Events
  import opened Ledgers
  import opened LedgerProof
  import opened MergeProof
  import opened BulkLedgers
  import opened BulkLoops
  import opened VehicleState
  import opened VehicleTable
  import opened Windows
  import opened ServingSystem
  import ServingLaws

  /** Primary key and content of `stream_serving_stage`. */
  datatype StageKey = StageKey(run: string, at: Position)
  datatype StageRow = StageRow(event: Event, stagedAt: int)
  type Stage = map<StageKey, StageRow>

  datatype Outcome<T> = Done(value: T) | Refused

  /** Rows older than a day are dropped before a merge looks at the stage. */
  function Pruned(stage: Stage, now: int): Stage {
    map k | k in stage && stage[k].stagedAt >= now - DAY :: stage[k]
  }

  function RowsOf(stage: Stage, run: string): Topic {
    var positions := set k | k in stage && k.run == run :: k.at;
    map p | p in positions :: stage[StageKey(run, p)].event
  }

  function WithoutRun(stage: Stage, run: string): Stage {
    map k | k in stage && k.run != run :: stage[k]
  }

  /** The stage after loading one partition: the first row per position wins. */
  function Loaded(stage: Stage, run: string, now: int, rows: seq<(Position, Event)>): Stage {
    if rows == [] then stage
    else
      var before, last := Loaded(stage, run, now, rows[..|rows| - 1]), rows[|rows| - 1];
      if StageKey(run, last.0) in before then before else before[StageKey(run, last.0) := StageRow(last.1, now)]
  }

  lemma RowsOfMembers(stage: Stage, run: string, p: Position)
    ensures p in RowsOf(stage, run) <==> StageKey(run, p) in stage
    ensures p in RowsOf(stage, run) ==> RowsOf(stage, run)[p] == stage[StageKey(run, p)].event
  {
    if StageKey(run, p) in stage {
      assert StageKey(run, p).at == p;
    }
  }

  /** Loading stages exactly the given positions for the run, each with what Kafka holds there, and leaves other runs alone. */
  lemma {:induction false} LoadedRowsComeFromTopic(
    stage: Stage, run: string, now: int, rows: seq<(Position, Event)>, topic: Topic, other: string, p: Position)
    requires FromTopic(RowsOf(stage, run), topic) && forall r :: r in rows ==> r.0 in topic && topic[r.0] == r.1
    ensures var after := RowsOf(Loaded(stage, run, now, rows), run);
            && (p in after <==> p in RowsOf(stage, run) || exists i :: 0 <= i < |rows| && rows[i].0 == p)
            && (p in after ==> p in topic && after[p] == topic[p])
    ensures other != run ==> var before, after := RowsOf(stage, other), RowsOf(Loaded(stage, run, now, rows), other);
              (p in after <==> p in before) && (p in after ==> after[p] == before[p])
  {
    hide RowsOf;
    RowsOfMembers(stage, run, p);
    RowsOfMembers(stage, other, p);
    if rows != [] {
      var most, last := rows[..|rows| - 1], rows[|rows| - 1];
      assert rows == most + [last];
      var before, after := Loaded(stage, run, now, most), Loaded(stage, run, now, rows);
      LoadedRowsComeFromTopic(stage, run, now, most, topic, other, p);
      RowsOfMembers(before, run, p);
      RowsOfMembers(after, run, p);
      RowsOfMembers(before, other, p);
      RowsOfMembers(after, other, p);
      EarlierOrLast(most, last, p);
    }
  }

  lemma EarlierOrLast(most: seq<(Position, Event)>, last: (Position, Event), p: Position)
    ensures (exists i :: 0 <= i < |most + [last]| && (most + [last])[i].0 == p)
            <==> (exists i :: 0 <= i < |most| && most[i].0 == p) || last.0 == p
  {
    if i :| 0 <= i < |most| && most[i].0 == p {
      assert (most + [last])[i].0 == p;
    }
    if last.0 == p {
      assert (most + [last])[|most|].0 == p;
    }
  }

  /** The rows of a run among the rows that are not dropped for their age, and what is left without them. */
  lemma RunRows(stage: Stage, run: string, now: int)
    ensures var rows := RowsOf(Pruned(stage, now), run);
            && (forall p :: p in rows <==> StageKey(run, p) in stage && stage[StageKey(run, p)].stagedAt >= now - 86_400_000_000)
            && (forall p :: p in rows ==> rows[p] == stage[StageKey(run, p)].event)
    ensures var rest := WithoutRun(Pruned(stage, now), run);
            && (forall k :: k in rest <==> k in stage && k.run != run && stage[k].stagedAt >= now - 86_400_000_000)
            && (forall k :: k in rest ==> rest[k] == stage[k])
  {
    forall p ensures p in RowsOf(Pruned(stage, now), run) <==> StageKey(run, p) in Pruned(stage, now) {
      RowsOfMembers(Pruned(stage, now), run, p);
    }
  }

  /** What loading adds: one row per new position, staged now, and nothing else changes. */
  lemma {:induction false} LoadedMembers(stage: Stage, run: string, now: int, rows: seq<(Position, Event)>)
    ensures var after := Loaded(stage, run, now, rows);
            && (forall k :: k in stage ==> k in after && after[k] == stage[k])
            && (forall r :: r in rows ==> StageKey(run, r.0) in after)
            && (forall k :: k in after && k !in stage ==> k.run == run && after[k].stagedAt == now && (k.at, after[k].event) in rows)
  {
    if rows != [] {
      var most, last := rows[..|rows| - 1], rows[|rows| - 1];
      assert rows == most + [last];
      LoadedMembers(stage, run, now, most);
    }
  }

  predicate HasPosition(rows: seq<(Position, Event)>, p: Position) {
    exists r :: r in rows && r.0 == p
  }

  predicate OneRowPerWindow(rows: seq<(WindowKey, WindowRow)>) {
    forall i, j :: 0 <= i < j < |rows| ==> rows[i].0 != rows[j].0
  }

  function WindowRows(rows: seq<(WindowKey, WindowRow)>): WindowTable {
    if rows == [] then map[] else WindowRows(rows[..|rows| - 1])[rows[|rows| - 1].0 := rows[|rows| - 1].1]
  }

  /** One guarded upsert after the other is the upsert of both. */
  lemma TwoUpserts(table: WindowTable, a: WindowTable, b: WindowTable)
    ensures SparkUpsert(SparkUpsert(table, a), b) == SparkUpsert(table, a + b)
  {
    var first, both := SparkUpsert(table, a), SparkUpsert(table, a + b);
    var second := SparkUpsert(first, b);
    forall w ensures (w in both <==> w in second) && (w in both ==> both[w] == second[w]) {
      UpsertAt(table, a, w);
      UpsertAt(first, b, w);
      UpsertAt(table, a + b, w);
      hide SparkUpsert;
    }
    hide SparkUpsert;
  }

  lemma UpsertAt(table: WindowTable, rows: WindowTable, w: WindowKey)
    ensures var after := SparkUpsert(table, rows);
            && (w in after <==> w in table || w in rows)
            && (w in after ==> after[w] == if w in rows && (w in table ==> !table[w].corrected) then rows[w].(corrected := false) else table[w])
  {}

  lemma {:induction false} WindowRowsMembers(rows: seq<(WindowKey, WindowRow)>)
    requires OneRowPerWindow(rows)
    ensures forall r :: r in rows ==> r.0 in WindowRows(rows) && WindowRows(rows)[r.0] == r.1
    ensures forall w :: w in WindowRows(rows) ==> exists r :: r in rows && r.0 == w
  {
    if rows != [] {
      var most, last := rows[..|rows| - 1], rows[|rows| - 1];
      assert rows == most + [last];
      forall i | 0 <= i < |most| ensures most[i].0 != last.0 {
        assert most[i] == rows[i];
      }
      WindowRowsMembers(most);
    }
  }

  /** The guarded upsert row by row: new and uncorrected windows take the given row, everything else stays. */
  lemma UpsertMeans(table: WindowTable, rows: seq<(WindowKey, WindowRow)>)
    requires OneRowPerWindow(rows)
    ensures var after := SparkUpsert(table, WindowRows(rows));
            && (forall w :: w in after <==> w in table || exists r :: r in rows && r.0 == w)
            && (forall r :: r in rows && (r.0 in table ==> !table[r.0].corrected) ==> after[r.0] == r.1.(corrected := false))
            && (forall w :: w in table && (table[w].corrected || !exists r :: r in rows && r.0 == w) ==> after[w] == table[w])
  {
    WindowRowsMembers(rows);
    hide WindowRows, OneRowPerWindow;
    forall w {
      UpsertAt(table, WindowRows(rows), w);
    }
    hide SparkUpsert;
    forall w ensures w in WindowRows(rows) <==> exists r :: r in rows && r.0 == w {}
  }

  lemma {:induction false} PagesJoin(a: seq<(WindowKey, WindowRow)>, b: seq<(WindowKey, WindowRow)>)
    ensures WindowRows(a + b) == WindowRows(a) + WindowRows(b)
    decreases |b|
  {
    if b == [] {
      assert a + b == a;
    } else {
      var most := b[..|b| - 1];
      PagesJoin(a, most);
      assert (a + b)[..|a + b| - 1] == a + most;
    }
  }

  class Store {
    var keys: Keys
    var conflicts: Conflicts
    var trips: Trips
    var contributions: Contributions
    var windows: WindowTable
    var vehicles: Vehicles
    var alerts: Alerts
    var stage: Stage

    constructor ()
      ensures View() == START && stage == map[]
    {
      keys, conflicts, trips, contributions := map[], map[], map[], map[];
      windows, vehicles, alerts, stage := map[], map[], map[], map[];
    }

    function Identities(): Tables
      reads this
    {
      Tables(keys, conflicts, trips, contributions)
    }

    function View(): System
      reads this
    {
      System(Identities(), windows, vehicles, alerts)
    }

    /** Load one Spark partition in chunks of 500 rows; nothing but the stage changes. */
    method StagePartition(rows: seq<(Position, Event)>, run: string, now: int)
      modifies this`stage
      ensures stage == Loaded(old(stage), run, now, rows)
    {
      var values: seq<(Position, Event)> := [];
      ghost var written := 0;
      for i := 0 to |rows|
        invariant 0 <= written <= i && values == rows[written..i] && |values| < 500
        invariant stage == Loaded(old(stage), run, now, rows[..written])
      {
        values := values + [rows[i]];
        if |values| >= 500 {
          assert rows[..written] + values == rows[..i + 1];
          Write(values, run, now, old(stage), rows[..written]);
          written := i + 1;
          values := [];
        }
      }
      assert rows[..written] + values == rows;
      if values != [] {
        Write(values, run, now, old(stage), rows[..written]);
      } else {
        assert rows[..written] == rows;
      }
    }

    /** One micro-batch: every partition is staged under a run id of its own, then the run is merged. If the merge comes
        within a day of the staging, the delivery is exactly the set of records handed over, each as Kafka holds it. */
    method ServeMicroBatch(partitions: seq<seq<(Position, Event)>>, times: seq<int>, run: string, batchId: int, now: int, minutes: nat, ghost topic: Topic)
      returns (conflictCount: nat, ghost delivered: Topic)
      requires forall k :: k in stage ==> k.run != run
      requires |times| == |partitions| && forall i :: 0 <= i < |times| ==> now - 86_400_000_000 <= times[i]
      requires forall i, r :: 0 <= i < |partitions| && r in partitions[i] ==> r.0 in topic && topic[r.0] == r.1
      modifies this
      ensures forall p :: p in delivered <==> exists i :: 0 <= i < |partitions| && HasPosition(partitions[i], p)
      ensures FromTopic(delivered, topic)
      ensures View() == MergeSystem(old(View()), delivered, batchId, minutes)
      ensures conflictCount == |ConflictIds(old(Identities()), delivered.Values)|
      ensures forall k :: k in stage <==> k in old(stage) && old(stage)[k].stagedAt >= now - 86_400_000_000
      ensures forall k :: k in stage ==> stage[k] == old(stage)[k]
    {
      hide ConflictIds, MergeSystem, Loaded, RowsOf, Pruned, WithoutRun;
      for n := 0 to |partitions|
        invariant View() == old(View())
        invariant forall k :: k in stage && k.run != run <==> k in old(stage)
        invariant forall k :: k in old(stage) ==> stage[k] == old(stage)[k]
        invariant forall i, r :: 0 <= i < n && r in partitions[i] ==> StageKey(run, r.0) in stage
        invariant forall k :: k in stage && k.run == run ==>
                    && stage[k].stagedAt >= now - 86_400_000_000 && k.at in topic && topic[k.at] == stage[k].event
                    && exists i :: 0 <= i < n && HasPosition(partitions[i], k.at)
      {
        ghost var before := stage;
        StagePartition(partitions[n], run, times[n]);
        LoadedMembers(before, run, times[n], partitions[n]);
        forall k | k in stage && k !in before ensures HasPosition(partitions[n], k.at) {
          assert (k.at, stage[k].event) in partitions[n];
        }
      }
      conflictCount, delivered := MergeStaged(run, batchId, now, minutes);
    }

    /** One INSERT ... ON CONFLICT DO NOTHING into the stage. */
    method Write(values: seq<(Position, Event)>, run: string, now: int, ghost start: Stage, ghost earlier: seq<(Position, Event)>)
      requires stage == Loaded(start, run, now, earlier)
      modifies this`stage
      ensures stage == Loaded(start, run, now, earlier + values)
    {
      assert earlier + values[..0] == earlier;
      for i := 0 to |values|
        invariant stage == Loaded(start, run, now, earlier + values[..i])
      {
        assert earlier + values[..i + 1] == (earlier + values[..i]) + [values[i]];
        var k := StageKey(run, values[i].0);
        if k !in stage {
          stage := stage[k := StageRow(values[i].1, now)];
        }
      }
      assert values[..|values|] == values;
    }

    /** The set-based merge of one staged run, statement by statement. What it merges are the run's rows that are at most
        a day old; what stays staged are the rows of other runs that are at most a day old. */
    method MergeStaged(run: string, batchId: int, now: int, minutes: nat) returns (conflictCount: nat, ghost merged: Topic)
      modifies this
      ensures forall p :: p in merged <==> StageKey(run, p) in old(stage) && old(stage)[StageKey(run, p)].stagedAt >= now - 86_400_000_000
      ensures forall p :: p in merged ==> merged[p] == old(stage)[StageKey(run, p)].event
      ensures View() == MergeSystem(old(View()), merged, batchId, minutes)
      ensures conflictCount == |ConflictIds(old(Identities()), merged.Values)|
      ensures forall k :: k in stage <==> k in old(stage) && k.run != run && old(stage)[k].stagedAt >= now - 86_400_000_000
      ensures forall k :: k in stage ==> stage[k] == old(stage)[k]
    {
      RunRows(stage, run, now);
      hide ConflictIds, StageBadTrips, Accepted, OnePerId, CompletionsAgree, MergeBlocking, RowsOf, Pruned, WithoutRun;
      stage := Pruned(stage, now);
      var rows := RowsOf(stage, run);
      merged := rows;
      var conflictIds := ConflictIds(Identities(), rows.Values);
      var badTrips := StageBadTrips(Identities(), rows.Values, conflictIds);
      AcceptedIsCoherent(Identities(), rows.Values);
      MergeBlocked(rows, batchId, minutes, conflictIds, badTrips);
      conflictCount := |conflictIds|;
      stage := WithoutRun(stage, run);
    }

    /** Everything after the two temporary tables are filled. */
    method MergeBlocked(rows: Topic, batchId: int, minutes: nat, conflictIds: set<string>, badTrips: set<string>)
      requires OnePerId(Accepted(keys, rows.Values, conflictIds, badTrips))
      requires CompletionsAgree(Accepted(keys, rows.Values, conflictIds, badTrips))
      modifies this
      ensures View() == MergeBlocking(old(View()), rows, batchId, minutes, conflictIds, badTrips)
      ensures stage == old(stage)
    {
      hide RecordConflicts, WithoutEvents, WithoutTrips, WithoutDiscredited, Affected, Correct, UpdateAlerts;
      hide NewContributions, NewKeys, NewTrips, MaxTs, Accepted, OnePerId, CompletionsAgree, Candidates, UpsertCandidates;
      Record(rows, batchId, conflictIds, badTrips);
      var affected := Affected(contributions, rows.Values, conflictIds, badTrips);
      Withdraw(conflictIds, badTrips);
      var accepted := Accepted(keys, rows.Values, conflictIds, badTrips);
      contributions := NewContributions(accepted) + contributions;
      windows := Correct(windows, affected, contributions);
      Admit(accepted, batchId, minutes);
    }

    /** The three inserts into `stream_conflicts`. */
    method Record(rows: Topic, batchId: int, conflictIds: set<string>, badTrips: set<string>)
      modifies this`conflicts
      ensures conflicts == RecordConflicts(old(Identities()), rows, batchId, conflictIds, badTrips)
    {
      conflicts := StagedConflicts(rows, batchId, conflictIds, badTrips) + conflicts;
      conflicts := PriorEventConflicts(keys, batchId, conflictIds) + conflicts;
      conflicts := PriorTripConflicts(trips, batchId, badTrips) + conflicts;
    }

    /** The three deletes: trips, vehicle rows and contributions that are discredited now. */
    method Withdraw(conflictIds: set<string>, badTrips: set<string>)
      modifies this`trips, this`vehicles, this`contributions
      ensures trips == WithoutTrips(old(trips), badTrips)
      ensures vehicles == WithoutDiscredited(old(vehicles), keys, conflictIds, badTrips)
      ensures contributions == WithoutEvents(old(contributions), conflictIds, badTrips)
    {
      trips := WithoutTrips(trips, badTrips);
      vehicles := WithoutDiscredited(vehicles, keys, conflictIds, badTrips);
      contributions := WithoutEvents(contributions, conflictIds, badTrips);
    }

    /** Vehicle rows, completed trips, identity rows and alerts of the accepted events. */
    method Admit(accepted: set<Event>, batchId: int, minutes: nat)
      requires OnePerId(accepted) && CompletionsAgree(accepted)
      modifies this`vehicles, this`trips, this`keys, this`alerts
      ensures vehicles == UpsertCandidates(old(vehicles), Candidates(old(vehicles), accepted))
      ensures trips == NewTrips(accepted) + old(trips)
      ensures keys == NewKeys(accepted, batchId) + old(keys)
      ensures alerts == UpdateAlerts(old(alerts), Candidates(old(vehicles), accepted), MaxTs(accepted), minutes)
    {
      var candidates := Candidates(vehicles, accepted);
      vehicles := UpsertCandidates(vehicles, candidates);
      trips := NewTrips(accepted) + trips;
      keys := NewKeys(accepted, batchId) + keys;
      alerts := UpdateAlerts(alerts, candidates, MaxTs(accepted), minutes);
    }

    /** Spark's window rows of one partition, one row per window, sent in pages of 500: together they are one guarded
        upsert. */
    method MetricsPartition(rows: seq<(WindowKey, WindowRow)>)
      requires OneRowPerWindow(rows)
      modifies this`windows
      ensures windows == SparkUpsert(old(windows), WindowRows(rows))
      ensures forall w :: w in windows <==> w in old(windows) || exists r :: r in rows && r.0 == w
      ensures forall r :: r in rows && (r.0 in old(windows) ==> !old(windows)[r.0].corrected) ==> windows[r.0] == r.1.(corrected := false)
      ensures forall w :: w in old(windows) && (old(windows)[w].corrected || !exists r :: r in rows && r.0 == w) ==> windows[w] == old(windows)[w]
    {
      var sent := 0;
      while sent < |rows|
        invariant 0 <= sent <= |rows|
        invariant windows == SparkUpsert(old(windows), WindowRows(rows[..sent]))
      {
        var next := if sent + 500 <= |rows| then sent + 500 else |rows|;
        PagesJoin(rows[..sent], rows[sent..next]);
        TwoUpserts(old(windows), WindowRows(rows[..sent]), WindowRows(rows[sent..next]));
        assert rows[..sent] + rows[sent..next] == rows[..next];
        windows := SparkUpsert(windows, WindowRows(rows[sent..next]));
        sent := next;
      }
      assert rows[..sent] == rows;
      UpsertMeans(old(windows), rows);
    }

    /** The bounded row-by-row form; an oversized batch is refused without touching anything. */
    method BulkServe(events: seq<Event>, batchId: int, minutes: nat) returns (rejectedCount: Outcome<nat>)
      requires AllValid(EventSet(events))
      modifies this
      ensures stage == old(stage)
      ensures |events| > 2500 ==> rejectedCount == Refused && View() == old(View())
      ensures |events| <= 2500 ==> View() == BulkSystem(old(View()), events, batchId, minutes)
      ensures |events| <= 2500 && AtMostOneOpen(old(alerts)) ==> ServingLaws.AlertsFollow(old(View()), View(), EventSet(events), minutes)
      ensures 0 < |events| <= 2500 ==>
                var t, batch := old(Identities()), EventSet(events);
                rejectedCount == Done(|Rejected(t, events, batchId, BulkIds(t, batch), BulkTrips(t, batch))|)
    {
      if AtMostOneOpen(alerts) {
        ServingLaws.BulkAlertsFollow(View(), events, batchId, minutes);
      }
      hide ServingLaws.AlertsFollow, AtMostOneOpen;
      if events == [] {
        EmptyBulkChangesNothing(View(), batchId, minutes);
        return Done(0);
      }
      if |events| > 2500 {
        return Refused;
      }
      var byId := GroupById(events);
      var conflictingIds, badTrips := FindBlocked(events, byId);
      BulkAcceptedIsCoherent(Identities(), EventSet(events));
      ClashesAreConflicting(Identities(), EventSet(events), conflictingIds);
      var count := ServeBlocked(events, byId, batchId, minutes, conflictingIds, badTrips);
      rejectedCount := Done(count);
    }

    /** The lookups and the two blocking sets. */
    method FindBlocked(events: seq<Event>, byId: Groups) returns (conflictingIds: set<string>, badTrips: set<string>)
      requires AllValid(EventSet(events)) && Grouped(events, byId)
      ensures conflictingIds == BulkIds(Identities(), EventSet(events))
      ensures badTrips == BulkTrips(Identities(), EventSet(events))
    {
      var t, batch := Identities(), EventSet(events);
      var priorKeys := KnownKeys(t, batch);
      var blockedEvents, blockedTrips := ScanConflicts(t, batch);
      conflictingIds := FindConflictingIds(events, byId, t, blockedEvents);
      var disputed := FindDisputedTrips(events, t);
      badTrips := disputed + blockedTrips
        + (set e | e in batch && e.id in conflictingIds && Truthy(e.trip) :: e.trip.value)
        + (set k | k in priorKeys && k in conflictingIds && Truthy(priorKeys[k].trip) :: priorKeys[k].trip.value);
      BadTripsAreBulkTrips(t, batch, conflictingIds, disputed, priorKeys, badTrips);
    }

    /** Everything after the blocking sets are known. */
    method ServeBlocked(events: seq<Event>, byId: Groups, batchId: int, minutes: nat, conflictingIds: set<string>, badTrips: set<string>)
      returns (count: nat)
      requires Grouped(events, byId)
      requires forall id :: Clashes(EventSet(events), keys, id) ==> id in conflictingIds
      requires OnePerId(Accepted(keys, EventSet(events), conflictingIds, badTrips))
      requires CompletionsAgree(Accepted(keys, EventSet(events), conflictingIds, badTrips))
      modifies this
      ensures View() == BulkBlocking(old(View()), events, batchId, minutes, conflictingIds, badTrips)
      ensures count == |Rejected(old(Identities()), events, batchId, conflictingIds, badTrips)|
      ensures stage == old(stage)
    {
      hide WithoutEvents, WithoutTrips, WithoutDiscredited, Affected, FoldVehicles, Correct, UpdateBulkAlerts, Rejected;
      hide NewContributions, NewKeys, NewTrips, SortEvents, VehiclesOf, MaxTs, Accepted, OnePerId, CompletionsAgree, Grouped, Clashes;
      ghost var next := BulkBlocking(View(), events, batchId, minutes, conflictingIds, badTrips);
      BulkBlockingMeans(View(), events, batchId, minutes, conflictingIds, badTrips);
      var rejected, accepted := SiftAll(events, byId, batchId, conflictingIds, badTrips);
      count := |rejected|;
      hide *;
      Retract(EventSet(events), rejected, accepted, conflictingIds, badTrips);
      assert FoldVehicles(vehicles, SortEvents(accepted)) == next.vehicles;
      assert UpdateBulkAlerts(alerts, next.vehicles, VehiclesOf(accepted), MaxTs(accepted), minutes) == next.alerts;
      AdmitInOrder(accepted, batchId, minutes);
      assert vehicles == next.vehicles;
      ViewIs(next);
    }

    /** Conflict rows first, then the three deletes, the new contributions and the windows they belong to. */
    method Retract(batch: set<Event>, rejected: Conflicts, accepted: set<Event>, conflictingIds: set<string>, badTrips: set<string>)
      requires OnePerId(accepted)
      modifies this`conflicts, this`trips, this`vehicles, this`contributions, this`windows
      ensures conflicts == rejected + old(conflicts)
      ensures trips == WithoutTrips(old(trips), badTrips)
      ensures vehicles == WithoutDiscredited(old(vehicles), keys, conflictingIds, badTrips)
      ensures contributions == NewContributions(accepted) + WithoutEvents(old(contributions), conflictingIds, badTrips)
      ensures windows == Correct(old(windows), Affected(old(contributions), batch, conflictingIds, badTrips), contributions)
    {
      hide *;
      conflicts := rejected + conflicts;
      var affected := Affected(contributions, batch, conflictingIds, badTrips);
      Withdraw(conflictingIds, badTrips);
      contributions := NewContributions(accepted) + contributions;
      windows := Correct(windows, affected, contributions);
    }

    lemma ViewIs(s: System)
      requires keys == s.tables.keys && conflicts == s.tables.conflicts && trips == s.tables.trips
      requires contributions == s.tables.contributions && windows == s.windows && vehicles == s.vehicles && alerts == s.alerts
      ensures View() == s
    {}

    /** All rejected rows and the accepted events. */
    method SiftAll(events: seq<Event>, byId: Groups, batchId: int, conflictingIds: set<string>, badTrips: set<string>)
      returns (rejected: Conflicts, accepted: set<Event>)
      requires Grouped(events, byId)
      requires forall id :: Clashes(EventSet(events), keys, id) ==> id in conflictingIds
      ensures rejected == Rejected(Identities(), events, batchId, conflictingIds, badTrips)
      ensures accepted == Accepted(keys, EventSet(events), conflictingIds, badTrips)
    {
      hide PriorEventConflicts, PriorTripConflicts, CopyConflicts, KnownKeys, KnownTrips, Grouped, Clashes, Accepted;
      var priorKeys, priorTrips := KnownKeys(Identities(), EventSet(events)), KnownTrips(Identities(), EventSet(events));
      var copyRows: Conflicts;
      copyRows, accepted := Sift(events, byId, keys, batchId, conflictingIds, badTrips);
      rejected := PriorEventConflicts(priorKeys, batchId, conflictingIds) + copyRows
                  + PriorTripConflicts(priorTrips, batchId, badTrips);
    }

    /** The sequential counterpart of `Admit`. */
    method AdmitInOrder(accepted: set<Event>, batchId: int, minutes: nat)
      requires OnePerId(accepted) && CompletionsAgree(accepted)
      modifies this`vehicles, this`trips, this`keys, this`alerts
      ensures vehicles == FoldVehicles(old(vehicles), SortEvents(accepted))
      ensures trips == NewTrips(accepted) + old(trips)
      ensures keys == NewKeys(accepted, batchId) + old(keys)
      ensures alerts == UpdateBulkAlerts(old(alerts), vehicles, VehiclesOf(accepted), MaxTs(accepted), minutes)
    {
      var changed, completed := FoldAccepted(vehicles, SortEvents(accepted));
      vehicles := vehicles + changed;
      trips := completed + trips;
      keys := NewKeys(accepted, batchId) + keys;
      alerts := UpdateBulkAlerts(alerts, vehicles, VehiclesOf(accepted), MaxTs(accepted), minutes);
    }
  }

  lemma EmptyBulkBlocksNothing(t: Tables)
    ensures BulkIds(t, {}) == {} && BulkTrips(t, {}) == {}
  {
    assert TripScope(t, {}) == {};
    assert BlockedEventHits(t, {}) == {} && BlockedTripHits(t, {}) == {};
  }

  lemma EmptyBulkRejectsNothing(t: Tables, batchId: int)
    ensures Rejected(t, [], batchId, {}, {}) == map[]
  {
    hide PriorTripConflicts, PriorEventConflicts;
    assert EventSet([]) == {} && IdsOf({}) == {} && TripScope(t, {}) == {};
    assert KnownKeys(t, {}) == map[] && KnownTrips(t, {}) == map[];
    NoPriorRows(batchId);
  }

  lemma NoPriorRows(batchId: int)
    ensures PriorEventConflicts(map[], batchId, {}) == map[] && PriorTripConflicts(map[], batchId, {}) == map[]
  {}

  lemma EmptyBulkChangesNothing(s: System, batchId: int, minutes: nat)
    ensures AllValid(EventSet([])) && BulkSystem(s, [], batchId, minutes) == s
  {
    hide Rejected, Accepted, Affected, WithoutEvents, WithoutDiscredited, WithoutTrips, Correct, SortEvents, FoldVehicles;
    hide BulkIds, BulkTrips;
    assert EventSet([]) == {};
    EmptyBulkBlocksNothing(s.tables);
    EmptyBulkRejectsNothing(s.tables, batchId);
    NothingBlocked(s);
    NothingAccepted(s.tables);
  }

  lemma NothingAccepted(t: Tables)
    ensures OnePerId({}) && CompletionsAgree({}) && MaxTs({}) == None
    ensures NewKeys({}, 0) == map[] && NewTrips({}) == map[] && NewContributions({}) == map[]
    ensures forall b :: NewKeys({}, b) == map[]
  {}

  lemma NothingBlocked(s: System)
    ensures Accepted(s.tables.keys, {}, {}, {}) == {}
    ensures WithoutEvents(s.tables.contributions, {}, {}) == s.tables.contributions
    ensures WithoutDiscredited(s.vehicles, s.tables.keys, {}, {}) == s.vehicles
    ensures Affected(s.tables.contributions, {}, {}, {}) == {}
    ensures forall cs :: Correct(s.windows, {}, cs) == s.windows
    ensures WithoutTrips(s.tables.trips, {}) == s.tables.trips
    ensures SortEvents({}) == [] && FoldVehicles(s.vehicles, []) == s.vehicles
  {}

  lemma BadTripsAreBulkTrips(t: Tables, batch: set<Event>, ids: set<string>, disputed: set<string>, priorKeys: Keys, trips: set<string>)
    requires ids == BulkIds(t, batch) && priorKeys == KnownKeys(t, batch)
    requires forall trip :: trip in disputed <==> Disputed(t, batch, trip)
    requires trips == disputed + BlockedTripHits(t, batch)
                      + (set e | e in batch && e.id in ids && Truthy(e.trip) :: e.trip.value)
                      + (set k | k in priorKeys && k in ids && Truthy(priorKeys[k].trip) :: priorKeys[k].trip.value)
    ensures trips == BulkTrips(t, batch)
  {
    DisputedTripsMeans(t, batch, disputed);
    KnownTripsMeans(t, batch, ids);
    hide Disputed, KnownKeys, BlockedTripHits, BulkIds, Truthy, TripScope;
  }

  lemma DisputedTripsMeans(t: Tables, batch: set<Event>, disputed: set<string>)
    requires forall trip :: trip in disputed <==> Disputed(t, batch, trip)
    ensures disputed == (set a, b | a in batch && b in batch && a.completed && b.completed && a.trip.Some? && a.trip == b.trip
                                    && SignatureOf(a) != SignatureOf(b) :: a.trip.value)
                        + (set e | e in batch && e.completed && TripIn(e.trip, t.trips.Keys) && e.trip.value in TripScope(t, batch)
                                   && SignatureOf(e) != t.trips[e.trip.value] :: e.trip.value)
  {
    hide TripScope;
  }

  lemma KnownTripsMeans(t: Tables, batch: set<Event>, ids: set<string>)
    ensures var priorKeys := KnownKeys(t, batch);
            (set k | k in priorKeys && k in ids && Truthy(priorKeys[k].trip) :: priorKeys[k].trip.value)
            == (set e | e in batch && e.id in ids && e.id in t.keys && Truthy(t.keys[e.id].trip) :: t.keys[e.id].trip.value)
  {}

  lemma ClashesAreConflicting(t: Tables, batch: set<Event>, ids: set<string>)
    requires ids == BulkIds(t, batch)
    ensures forall id :: Clashes(batch, t.keys, id) ==> id in ids
  {}
}
