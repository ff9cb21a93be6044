/** Telemetry coverage as a report states it, against the events, the settings and the day. */
module DayCoverage {
  import Aggregate
  import opened Coverage
  import opened DayInputs
  import opened Events
  import opened Expenses

  /** The k-th tick of the simulated clock, in microseconds: every interval since 1 March 2026, stretched to the length of
      a simulated day. */
  function TickInstant(k: int, settings: Settings): real {
    1_772_323_200_000_000.0 + k as real * (settings.interval * 86400.0 / settings.daySeconds) * 1_000_000.0
  }

  predicate OnDay(instant: real, day: int) {
    day as real * 86_400_000_000.0 <= instant < (day + 1) as real * 86_400_000_000.0
  }

  /** A conflict row names the event's id, which is not one the ledger invented. */
  predicate Named(e: Event, conflicts: seq<ConflictRow>) {
    e.id != "" && !(PRIOR <= e.id) && exists c :: c in conflicts && c.eventId == e.id
  }

  /** The events of the day whose ids are neither named by a conflict row nor used for two different events. */
  function CleanEvents(events: set<Event>, conflicts: seq<ConflictRow>): set<Event> {
    set e | e in events && !Named(e, conflicts) && forall f :: f in events && f.id == e.id ==> f == e
  }

  function CleanEventsOf(events: set<Event>, conflicts: seq<ConflictRow>, v: string): set<Event> {
    set e | e in CleanEvents(events, conflicts) && e.vehicle == v
  }

  ghost predicate SeenAt(mine: set<Event>, instant: real) {
    exists e :: e in mine && e.ts as real == instant
  }

  /** Every event lies at a tick, and all in one zone. */
  ghost predicate AtTicksInOneZone(mine: set<Event>, settings: Settings) {
    && (forall e :: e in mine ==> exists k :: e.ts as real == TickInstant(k, settings))
    && (forall e, f :: e in mine && f in mine ==> e.zone == f.zone)
  }

  ghost predicate HasTick(day: int, settings: Settings) {
    exists k :: OnDay(TickInstant(k, settings), day)
  }

  ghost predicate SeenAtEveryTick(mine: set<Event>, day: int, settings: Settings) {
    forall k :: OnDay(TickInstant(k, settings), day) ==> SeenAt(mine, TickInstant(k, settings))
  }

  /* ---- instants and seconds ---- */

  lemma TickInSeconds(k: int, ts: int, settings: Settings)
    ensures ts as real == TickInstant(k, settings) <==> SecondsOf(ts) == k as real * StepOf(settings.interval, settings.daySeconds)
  {
    var x := k as real * (settings.interval * 86400.0 / settings.daySeconds);
    assert SIM_START_DAY * DAY == 1_772_323_200_000_000;
    assert SecondsOf(ts) == (ts as real - 1_772_323_200_000_000.0) / 1_000_000.0;
  }

  lemma TickOnDay(k: int, day: int, settings: Settings)
    ensures var step := StepOf(settings.interval, settings.daySeconds);
            OnDay(TickInstant(k, settings), day) <==> TickIn(k, DayStart(day), DayStart(day) + 86400.0, step)
  {
    var x := k as real * (settings.interval * 86400.0 / settings.daySeconds);
    assert DayStart(day) == day as real * 86400.0 - 20513.0 * 86400.0;
    assert (day + 1) as real == day as real + 1.0;
  }

  lemma EventOnDay(ts: int, day: int)
    ensures DayOf(ts) == day <==> OnDay(ts as real, day)
  {
    CalendarOf(ts);
    if OnDay(ts as real, day) {
      assert day as real * 86_400_000_000.0 == (day * 86_400_000_000) as real;
      assert (day + 1) as real * 86_400_000_000.0 == ((day + 1) * 86_400_000_000) as real;
    }
    assert DayOf(ts) as real * 86_400_000_000.0 == (DayOf(ts) * 86_400_000_000) as real;
    assert (DayOf(ts) + 1) as real * 86_400_000_000.0 == ((DayOf(ts) + 1) * 86_400_000_000) as real;
  }

  lemma SecondsDiffer(a: int, b: int)
    ensures SecondsOf(a) == SecondsOf(b) <==> a == b
  {}

  /* ---- the observations of one vehicle ---- */

  function SeenBy(mine: set<Event>): set<Observation> {
    set e | e in mine :: Observation(SecondsOf(e.ts), e.zone)
  }

  function Pairs(mine: set<Event>): set<(int, string)> {
    set e | e in mine :: (e.ts, e.zone)
  }

  function Observe(p: (int, string)): Observation {
    Observation(SecondsOf(p.0), p.1)
  }

  lemma {:induction false} ObservedOnce(pairs: set<(int, string)>)
    ensures |set p | p in pairs :: Observe(p)| == |pairs|
    decreases pairs
  {
    var image := set p | p in pairs :: Observe(p);
    if pairs == {} {
      assert image == {};
    } else {
      var p :| p in pairs;
      var rest := pairs - {p};
      ObservedOnce(rest);
      var others := set q | q in rest :: Observe(q);
      forall q | q in rest ensures Observe(q) != Observe(p) {
        SecondsDiffer(q.0, p.0);
      }
      assert pairs == rest + {p};
      assert image == others + {Observe(p)};
    }
  }

  lemma PairsAreSeen(mine: set<Event>)
    ensures |SeenBy(mine)| == |Pairs(mine)|
  {
    ObservedOnce(Pairs(mine));
    forall e | e in mine ensures Observation(SecondsOf(e.ts), e.zone) in (set p | p in Pairs(mine) :: Observe(p)) {
      assert (e.ts, e.zone) in Pairs(mine);
      assert Observe((e.ts, e.zone)) == Observation(SecondsOf(e.ts), e.zone);
    }
    assert SeenBy(mine) == set p | p in Pairs(mine) :: Observe(p);
  }

  /** The events that survive the exclusion of conflicting ids are the clean ones. */
  lemma {:induction false} CleanMeans(events: set<Event>, conflicts: seq<ConflictRow>)
    ensures Aggregate.Clean(events, Aggregate.BadIds(events, BlockedEventIds(conflicts))) == CleanEvents(events, conflicts)
  {
    forall e | e in events
      ensures e.id in Aggregate.BadIds(events, BlockedEventIds(conflicts)) <==>
              Named(e, conflicts) || !(forall f :: f in events && f.id == e.id ==> f == e)
    {
      if f :| f in events && f.id == e.id && f != e {
        assert e.id in Aggregate.BadIds(events, BlockedEventIds(conflicts));
      }
    }
  }

  lemma SummaryAt(clean: set<Event>, v: string, mine: set<Event>)
    requires mine == set e | e in clean && e.vehicle == v
    ensures v in SummaryOf(clean) <==> mine != {}
    ensures mine != {} ==> SummaryOf(clean)[v] == SeenBy(mine)
  {
    forall e | e in clean && e.vehicle == v ensures e in mine {}
    if mine != {} {
      var e :| e in mine;
      assert SummaryOf(clean)[v] == SeenBy(mine);
    }
  }

  /* ---- the verdict ---- */

  /** What the report says of a vehicle, before anything is said about completeness. */
  lemma {:induction false} ReportedVerdict(
    day: int, noPaths: bool, events: set<Event>, costs: seq<Cost>, settings: Settings, conflicts: seq<ConflictRow>, v: string)
    requires v in settings.vehicles && (noPaths ==> events == {})
    requires Assemble(day, noPaths, events, costs, settings, conflicts).Computed?
    ensures !noPaths ==> forall e :: e in events ==> DayOf(e.ts) == day
    ensures var coverage := Assemble(day, noPaths, events, costs, settings, conflicts).report.coverage;
            var mine, step := CleanEventsOf(events, conflicts, v), StepOf(settings.interval, settings.daySeconds);
            && v in coverage && step > 0.0
            && coverage[v].observations == |SeenBy(mine)|
            && (coverage[v].complete <==> mine != {} && IsComplete(Arrange(SeenBy(mine)), DayStart(day), DayStart(day) + 86400.0, step))
  {
    var mine := CleanEventsOf(events, conflicts, v);
    var clean := Aggregate.Clean(events, Aggregate.BadIds(events, BlockedEventIds(conflicts)));
    CleanMeans(events, conflicts);
    SummaryAt(clean, v, mine);
    NobodySeen(events, conflicts, v);
    AssembledCoverage(day, noPaths, events, costs, settings, conflicts, v);
    StepIsPositive(settings.interval, settings.daySeconds);
    hide *;
    VerdictAt(day, noPaths, clean, settings,
              Aggregate.ConflictedVehicles(events, BlockedEventIds(conflicts), BlockedTripIds(conflicts)), mine, v);
  }

  lemma NobodySeen(events: set<Event>, conflicts: seq<ConflictRow>, v: string)
    ensures events == {} ==> CleanEventsOf(events, conflicts, v) == {}
  {}

  /** The coverage of the report is the computed one, up to the conflict flag. */
  lemma AssembledCoverage(
    day: int, noPaths: bool, events: set<Event>, costs: seq<Cost>, settings: Settings, conflicts: seq<ConflictRow>, v: string)
    requires Assemble(day, noPaths, events, costs, settings, conflicts).Computed?
    ensures var ids, trips := BlockedEventIds(conflicts), BlockedTripIds(conflicts);
            var before := CoverageOf(settings, day, noPaths, Aggregate.Clean(events, Aggregate.BadIds(events, ids)),
                                     Aggregate.ConflictedVehicles(events, ids, trips));
            var after := Assemble(day, noPaths, events, costs, settings, conflicts).report.coverage;
            && (v in after <==> v in before)
            && (v in before ==> after[v].complete == before[v].complete && after[v].observations == before[v].observations)
            && (v in before && before[v].conflict ==> after[v].conflict)
            && (v in before && after[v].conflict ==> before[v].conflict || v in ConflictedBy(conflicts))
    ensures !noPaths ==> forall e :: e in events ==> DayOf(e.ts) == day
  {
    hide Aggregate.NoPathsReport, Aggregate.JoinAll, Aggregate.BadIds, Aggregate.Clean, Aggregate.ConflictedVehicles, Aggregate.GoodTrips,
      OverrideAll, BlockedEventIds, BlockedTripIds, ConflictedBy, CoverageOf;
  }

  lemma VerdictAt(day: int, noPaths: bool, clean: set<Event>, settings: Settings, conflicted: set<string>, mine: set<Event>, v: string)
    requires v in settings.vehicles && (noPaths ==> mine == {}) && StepOf(settings.interval, settings.daySeconds) > 0.0
    requires v in SummaryOf(clean) <==> mine != {}
    requires mine != {} ==> SummaryOf(clean)[v] == SeenBy(mine)
    ensures var coverage, step := CoverageOf(settings, day, noPaths, clean, conflicted), StepOf(settings.interval, settings.daySeconds);
            && v in coverage && coverage[v].observations == |SeenBy(mine)|
            && (coverage[v].complete <==> mine != {} && IsComplete(Arrange(SeenBy(mine)), DayStart(day), DayStart(day) + 86400.0, step))
  {
    hide SummaryOf, Arrange, IsComplete, StepOf;
    assert mine == {} ==> SeenBy(mine) == {};
    hide SeenBy;
  }

  /* ---- gaps between observations ---- */

  ghost predicate HasSuccessor(seen: set<Observation>, o: Observation, gap: real) {
    (forall p :: p in seen ==> p.time <= o.time) || exists p :: p in seen && o.time < p.time <= o.time + gap
  }

  lemma {:induction false} MaxGapMeans(rows: seq<Observation>, gap: real)
    requires gap >= 0.0
    ensures MaxGap(rows) <= gap <==> forall i :: 0 < i < |rows| ==> rows[i].time - rows[i - 1].time <= gap
  {
    if |rows| >= 2 {
      var most, last := rows[..|rows| - 1], |rows| - 1;
      MaxGapMeans(most, gap);
      forall i | 0 <= i < |most| ensures most[i] == rows[i] {}
      MaxGapUnfolds(rows, gap);
    }
  }

  /** In time order the largest gap is at most `gap` exactly if every observation but the last has another soon after it. */
  lemma {:induction false} GapsAreSuccessors(rows: seq<Observation>, seen: set<Observation>, gap: real)
    requires gap >= 0.0 && Lists(rows, seen)
    ensures MaxGap(rows) <= gap <==> forall o :: o in seen ==> HasSuccessor(seen, o, gap)
  {
    MaxGapMeans(rows, gap);
    if MaxGap(rows) <= gap {
      forall o | o in seen ensures HasSuccessor(seen, o, gap) {
        assert o in rows;
        var i :| 0 <= i < |rows| && rows[i] == o;
        NextLater(rows, seen, i, gap);
      }
    }
    if forall o :: o in seen ==> HasSuccessor(seen, o, gap) {
      forall i | 0 < i < |rows| ensures rows[i].time - rows[i - 1].time <= gap {
        SuccessorBounds(rows, seen, i, gap);
      }
    }
  }

  lemma {:induction false} NextLater(rows: seq<Observation>, seen: set<Observation>, i: nat, gap: real)
    requires Lists(rows, seen) && i < |rows| && forall j :: 0 < j < |rows| ==> rows[j].time - rows[j - 1].time <= gap
    ensures HasSuccessor(seen, rows[i], gap)
    decreases |rows| - i
  {
    if i + 1 < |rows| {
      assert rows[i + 1].time - rows[i].time <= gap;
      if rows[i + 1].time == rows[i].time {
        NextLater(rows, seen, i + 1, gap);
      } else {
        assert rows[i + 1] in rows && rows[i].time < rows[i + 1].time <= rows[i].time + gap;
      }
    } else {
      forall p | p in seen ensures p.time <= rows[i].time {
        assert p in rows;
        var j :| 0 <= j < |rows| && rows[j] == p;
      }
    }
  }

  lemma SuccessorBounds(rows: seq<Observation>, seen: set<Observation>, i: nat, gap: real)
    requires gap >= 0.0 && Lists(rows, seen) && 0 < i < |rows| && HasSuccessor(seen, rows[i - 1], gap)
    requires rows[i - 1] in seen
    ensures rows[i].time - rows[i - 1].time <= gap
  {
    var o := rows[i - 1];
    assert rows[i] in rows;
    if rows[i].time > o.time {
      var p :| p in seen && o.time < p.time <= o.time + gap;
      assert p in rows;
      var j :| 0 <= j < |rows| && rows[j] == p;
      assert j >= i;
    }
  }

  /* ---- the verdict, in microseconds ---- */

  /** Distance between two ticks. */
  function TickLength(settings: Settings): real {
    settings.interval * 86400.0 / settings.daySeconds * 1_000_000.0
  }

  /** The first and the last observation lie within a tick and a millisecond of the edges of the day, no two neighbours are
      more than one and a half ticks apart, and there are as many observations as ticks. */
  ghost predicate WellObserved(mine: set<Event>, ticks: set<int>, day: int, settings: Settings) {
    var tick := TickLength(settings);
    && (exists e :: e in mine && e.ts as real <= day as real * 86_400_000_000.0 + tick + 1000.0)
    && (exists e :: e in mine && e.ts as real >= (day + 1) as real * 86_400_000_000.0 - tick - 1000.0)
    && (forall a :: a in mine ==> Followed(mine, a, 1.5 * tick))
    && |Pairs(mine)| >= |ticks|
  }

  ghost predicate Followed(mine: set<Event>, a: Event, gap: real) {
    (forall b :: b in mine ==> b.ts <= a.ts) || exists b :: b in mine && a.ts < b.ts && b.ts as real <= a.ts as real + gap
  }

  ghost predicate TicksOfDay(ticks: set<int>, day: int, settings: Settings) {
    forall k :: k in ticks <==> OnDay(TickInstant(k, settings), day)
  }

  lemma TicksAreExpected(ticks: set<int>, day: int, settings: Settings)
    requires TicksOfDay(ticks, day, settings)
    ensures var step := StepOf(settings.interval, settings.daySeconds);
            step > 0.0 && Expected(DayStart(day), DayStart(day) + 86400.0, step) == |ticks|
  {
    var start, step := DayStart(day), StepOf(settings.interval, settings.daySeconds);
    StepIsPositive(settings.interval, settings.daySeconds);
    ExpectedCountsTicks(start, start + 86400.0, step);
    forall k ensures k in ticks <==> k in Ticks(start, start + 86400.0, step) {
      TickOnDay(k, day, settings);
    }
    assert ticks == Ticks(start, start + 86400.0, step);
  }

  lemma FollowedInSeconds(mine: set<Event>, a: Event, gap: real)
    requires a in mine
    ensures HasSuccessor(SeenBy(mine), Observation(SecondsOf(a.ts), a.zone), gap) <==> Followed(mine, a, gap * 1_000_000.0)
  {
    var seen, o := SeenBy(mine), Observation(SecondsOf(a.ts), a.zone);
    forall b | b in mine ensures Observation(SecondsOf(b.ts), b.zone) in seen {}
    if p :| p in seen && o.time < p.time <= o.time + gap {
      var b :| b in mine && p == Observation(SecondsOf(b.ts), b.zone);
    }
    if b :| b in mine && a.ts < b.ts && b.ts as real <= a.ts as real + gap * 1_000_000.0 {
      assert o.time < SecondsOf(b.ts) <= o.time + gap;
    }
  }

  lemma EdgeRows(rows: seq<Observation>, seen: set<Observation>, start: real, end: real, slack: real)
    requires Lists(rows, seen) && rows != []
    ensures rows[0].time - start <= slack <==> exists o :: o in seen && o.time - start <= slack
    ensures end - rows[|rows| - 1].time <= slack <==> exists o :: o in seen && end - o.time <= slack
  {
    assert rows[0] in rows && rows[|rows| - 1] in rows;
    forall o | o in seen ensures rows[0].time <= o.time <= rows[|rows| - 1].time {
      assert o in rows;
      var i :| 0 <= i < |rows| && rows[i] == o;
    }
  }

  lemma EdgesInMicroseconds(mine: set<Event>, day: int, step: real)
    ensures (exists o :: o in SeenBy(mine) && o.time - DayStart(day) <= step + 0.001) <==>
            (exists e :: e in mine && e.ts as real <= day as real * 86_400_000_000.0 + step * 1_000_000.0 + 1000.0)
    ensures (exists o :: o in SeenBy(mine) && DayStart(day) + 86400.0 - o.time <= step + 0.001) <==>
            (exists e :: e in mine && e.ts as real >= (day + 1) as real * 86_400_000_000.0 - step * 1_000_000.0 - 1000.0)
  {
    assert (day + 1) as real == day as real + 1.0;
    assert DayStart(day) == day as real * 86400.0 - 20513.0 * 86400.0;
    forall e | e in mine ensures Observation(SecondsOf(e.ts), e.zone) in SeenBy(mine) {}
    forall e | e in mine
      ensures SecondsOf(e.ts) - DayStart(day) <= step + 0.001 <==> e.ts as real <= day as real * 86_400_000_000.0 + step * 1_000_000.0 + 1000.0
      ensures DayStart(day) + 86400.0 - SecondsOf(e.ts) <= step + 0.001 <==>
              e.ts as real >= (day + 1) as real * 86_400_000_000.0 - step * 1_000_000.0 - 1000.0
    {
      assert SecondsOf(e.ts) == (e.ts as real - 1_772_323_200_000_000.0) / 1_000_000.0;
    }
    hide SecondsOf, DayStart;
    if e :| e in mine && e.ts as real <= day as real * 86_400_000_000.0 + step * 1_000_000.0 + 1000.0 {
      assert Observation(SecondsOf(e.ts), e.zone).time - DayStart(day) <= step + 0.001;
    }
    if e :| e in mine && e.ts as real >= (day + 1) as real * 86_400_000_000.0 - step * 1_000_000.0 - 1000.0 {
      assert DayStart(day) + 86400.0 - Observation(SecondsOf(e.ts), e.zone).time <= step + 0.001;
    }
  }

  lemma {:induction false} VerdictExactly(mine: set<Event>, ticks: set<int>, day: int, settings: Settings)
    requires TicksOfDay(ticks, day, settings) && mine != {} && StepOf(settings.interval, settings.daySeconds) > 0.0
    ensures var step := StepOf(settings.interval, settings.daySeconds);
            IsComplete(Arrange(SeenBy(mine)), DayStart(day), DayStart(day) + 86400.0, step) <==> WellObserved(mine, ticks, day, settings)
  {
    hide *;
    var step, seen := StepOf(settings.interval, settings.daySeconds), SeenBy(mine);
    var rows, start := Arrange(seen), DayStart(day);
    SomethingSeen(mine);
    ListsSomething(rows, seen);
    forall a | a in mine ensures HasSuccessor(seen, Observation(SecondsOf(a.ts), a.zone), step * 1.5) <==> Followed(mine, a, 1.5 * TickLength(settings)) {
      FollowedInSeconds(mine, a, step * 1.5);
      TickLengths(settings);
    }
    AllFollowed(mine, step * 1.5, 1.5 * TickLength(settings));
    EdgeRows(rows, seen, start, start + 86400.0, step + 0.001);
    EdgesInMicroseconds(mine, day, step);
    GapsAreSuccessors(rows, seen, step * 1.5);
    PairsAreSeen(mine);
    TicksAreExpected(ticks, day, settings);
    CompleteUnfolds(rows, start, start + 86400.0, step);
    WellObservedUnfolds(mine, ticks, day, settings, step);
  }

  lemma SomethingSeen(mine: set<Event>)
    requires mine != {}
    ensures SeenBy(mine) != {}
  {
    var e :| e in mine;
    assert Observation(SecondsOf(e.ts), e.zone) in SeenBy(mine);
  }

  lemma ListsSomething(rows: seq<Observation>, seen: set<Observation>)
    requires Lists(rows, seen) && seen != {}
    ensures rows != []
  {
    var o :| o in seen;
    assert o in rows;
  }

  lemma TickLengths(settings: Settings)
    ensures 1.5 * TickLength(settings) == StepOf(settings.interval, settings.daySeconds) * 1.5 * 1_000_000.0
  {}

  lemma AllFollowed(mine: set<Event>, gap: real, instants: real)
    requires forall a :: a in mine ==> (HasSuccessor(SeenBy(mine), Observation(SecondsOf(a.ts), a.zone), gap) <==> Followed(mine, a, instants))
    ensures (forall o :: o in SeenBy(mine) ==> HasSuccessor(SeenBy(mine), o, gap)) <==> (forall a :: a in mine ==> Followed(mine, a, instants))
  {
    hide HasSuccessor, Followed, SecondsOf;
    forall a | a in mine ensures Observation(SecondsOf(a.ts), a.zone) in SeenBy(mine) {}
  }

  lemma CompleteUnfolds(rows: seq<Observation>, start: real, end: real, step: real)
    requires step > 0.0 && rows != []
    ensures IsComplete(rows, start, end, step) <==>
              && rows[0].time - start <= step + 0.001 && end - rows[|rows| - 1].time <= step + 0.001
              && MaxGap(rows) <= step * 1.5 && |rows| >= Expected(start, end, step)
  {
    hide MaxGap, Expected;
  }

  lemma WellObservedUnfolds(mine: set<Event>, ticks: set<int>, day: int, settings: Settings, step: real)
    requires step == StepOf(settings.interval, settings.daySeconds)
    ensures WellObserved(mine, ticks, day, settings) <==>
              && (exists e :: e in mine && e.ts as real <= day as real * 86_400_000_000.0 + step * 1_000_000.0 + 1000.0)
              && (exists e :: e in mine && e.ts as real >= (day + 1) as real * 86_400_000_000.0 - step * 1_000_000.0 - 1000.0)
              && (forall a :: a in mine ==> Followed(mine, a, 1.5 * TickLength(settings)))
              && |Pairs(mine)| >= |ticks|
  {
    hide Followed, Pairs;
    assert TickLength(settings) == step * 1_000_000.0;
  }

  /** Coverage in every computed report, from the events, the settings and the day: how often the vehicle was observed, and
      exactly when it counts as complete. The conflict rows may withhold the vehicle; they do not change this. */
  lemma {:induction false} CoverageExactly(
    day: int, noPaths: bool, events: set<Event>, costs: seq<Cost>, settings: Settings, conflicts: seq<ConflictRow>, v: string, ticks: set<int>)
    requires v in settings.vehicles && (noPaths ==> events == {}) && TicksOfDay(ticks, day, settings)
    requires Assemble(day, noPaths, events, costs, settings, conflicts).Computed?
    ensures var coverage, mine := Assemble(day, noPaths, events, costs, settings, conflicts).report.coverage, CleanEventsOf(events, conflicts, v);
            && v in coverage
            && coverage[v].observations == |Pairs(mine)|
            && (coverage[v].complete <==> WellObserved(mine, ticks, day, settings))
  {
    hide *;
    var mine := CleanEventsOf(events, conflicts, v);
    ReportedVerdict(day, noPaths, events, costs, settings, conflicts, v);
    PairsAreSeen(mine);
    if mine == {} {
      NothingObserved(mine, ticks, day, settings);
    } else {
      VerdictExactly(mine, ticks, day, settings);
    }
  }

  lemma NothingObserved(mine: set<Event>, ticks: set<int>, day: int, settings: Settings)
    requires mine == {}
    ensures !WellObserved(mine, ticks, day, settings)
  {}

  /* ---- vehicles seen at ticks ---- */

  predicate IsTick(time: real, k: int, step: real) {
    time == k as real * step
  }

  ghost predicate OnSomeTick(time: real, start: real, end: real, step: real) {
    exists k :: IsTick(time, k, step) && TickIn(k, start, end, step)
  }

  lemma {:induction false} TicksOfRows(rows: seq<Observation>, start: real, end: real, step: real) returns (ks: seq<int>)
    requires forall o :: o in rows ==> OnSomeTick(o.time, start, end, step)
    ensures |ks| == |rows| && forall i :: 0 <= i < |rows| ==> IsTick(rows[i].time, ks[i], step) && TickIn(ks[i], start, end, step)
  {
    ks := [];
    for n := 0 to |rows|
      invariant |ks| == n && forall i :: 0 <= i < n ==> IsTick(rows[i].time, ks[i], step) && TickIn(ks[i], start, end, step)
    {
      assert OnSomeTick(rows[n].time, start, end, step);
      var k :| IsTick(rows[n].time, k, step) && TickIn(k, start, end, step);
      ks := ks + [k];
    }
  }

  lemma LaterTick(x: real, y: real, a: int, b: int, step: real)
    requires step > 0.0 && x < y && IsTick(x, a, step) && IsTick(y, b, step)
    ensures a < b
  {
    if b <= a {
      TickOrder(b, a, step);
    }
  }

  /** In one zone, observations in time order are at strictly increasing ticks. */
  lemma {:induction false} OneZoneIncreases(rows: seq<Observation>, seen: set<Observation>, ks: seq<int>, step: real)
    requires step > 0.0 && Lists(rows, seen) && |ks| == |rows| && forall i :: 0 <= i < |rows| ==> IsTick(rows[i].time, ks[i], step)
    requires forall o, p :: o in seen && p in seen ==> o.zone == p.zone
    ensures forall i, j :: 0 <= i < j < |ks| ==> ks[i] < ks[j]
  {
    forall i, j | 0 <= i < j < |ks| ensures ks[i] < ks[j] {
      var o, p := rows[i], rows[j];
      assert o in rows && p in rows && o.time <= p.time && o != p && o.zone == p.zone;
      LaterTick(o.time, p.time, ks[i], ks[j], step);
    }
  }

  /** On a day with a tick, for a vehicle whose clean events all lie at ticks and in one zone: the report calls it complete
      exactly if it has a clean event at every tick of the day. */
  lemma {:induction false} CompleteExactlyAtEveryTick(
    day: int, noPaths: bool, events: set<Event>, costs: seq<Cost>, settings: Settings, conflicts: seq<ConflictRow>, v: string)
    requires v in settings.vehicles && (noPaths ==> events == {}) && HasTick(day, settings)
    requires Assemble(day, noPaths, events, costs, settings, conflicts).Computed?
    requires AtTicksInOneZone(CleanEventsOf(events, conflicts, v), settings)
    ensures var coverage := Assemble(day, noPaths, events, costs, settings, conflicts).report.coverage;
            v in coverage && (coverage[v].complete <==> SeenAtEveryTick(CleanEventsOf(events, conflicts, v), day, settings))
  {
    hide *;
    var mine := CleanEventsOf(events, conflicts, v);
    ReportedVerdict(day, noPaths, events, costs, settings, conflicts, v);
    if mine == {} {
      NeverSeen(mine, day, settings);
    } else {
      forall e | e in mine ensures DayOf(e.ts) == day {
        CleanIsDelivered(events, conflicts, v, e);
      }
      TickVerdict(mine, day, settings);
    }
  }

  lemma CleanIsDelivered(events: set<Event>, conflicts: seq<ConflictRow>, v: string, e: Event)
    requires e in CleanEventsOf(events, conflicts, v)
    ensures e in events
  {}

  lemma NeverSeen(mine: set<Event>, day: int, settings: Settings)
    requires mine == {} && HasTick(day, settings)
    ensures !SeenAtEveryTick(mine, day, settings)
  {
    var k :| OnDay(TickInstant(k, settings), day);
    assert !SeenAt(mine, TickInstant(k, settings));
  }

  lemma {:induction false} TickVerdict(mine: set<Event>, day: int, settings: Settings)
    requires mine != {} && AtTicksInOneZone(mine, settings) && HasTick(day, settings) && forall e :: e in mine ==> DayOf(e.ts) == day
    requires StepOf(settings.interval, settings.daySeconds) > 0.0
    ensures var step := StepOf(settings.interval, settings.daySeconds);
            IsComplete(Arrange(SeenBy(mine)), DayStart(day), DayStart(day) + 86400.0, step) <==> SeenAtEveryTick(mine, day, settings)
  {
    hide *;
    var step, seen := StepOf(settings.interval, settings.daySeconds), SeenBy(mine);
    var rows, start := Arrange(seen), DayStart(day);
    forall o | o in rows ensures OnSomeTick(o.time, start, start + 86400.0, step) {
      RowIsAtTick(mine, rows, o, day, settings);
    }
    var ks := TicksOfRows(rows, start, start + 86400.0, step);
    OneZone(mine, settings);
    OneZoneIncreases(rows, seen, ks, step);
    RowsAreAtTicks(rows, ks, start, start + 86400.0, step);
    TicksToCount(day, settings);
    CompleteMeansNoTickMissing(rows, ks, start, start + 86400.0, step);
    forall k ensures TickIn(k, start, start + 86400.0, step) <==> OnDay(TickInstant(k, settings), day) {
      TickOnDay(k, day, settings);
    }
    forall k ensures Occurs(ks, k) <==> SeenAt(mine, TickInstant(k, settings)) {
      OccursIsSeen(mine, rows, ks, k, settings);
    }
    EveryTickMeans(mine, day, settings);
  }

  lemma EveryTickMeans(mine: set<Event>, day: int, settings: Settings)
    ensures SeenAtEveryTick(mine, day, settings) <==> forall k :: OnDay(TickInstant(k, settings), day) ==> SeenAt(mine, TickInstant(k, settings))
  {
    hide SeenAt, OnDay, TickInstant;
  }

  lemma OneZone(mine: set<Event>, settings: Settings)
    requires AtTicksInOneZone(mine, settings)
    ensures forall o, p :: o in SeenBy(mine) && p in SeenBy(mine) ==> o.zone == p.zone
  {
    hide SecondsOf, TickInstant;
  }

  lemma RowIsAtTick(mine: set<Event>, rows: seq<Observation>, o: Observation, day: int, settings: Settings)
    requires AtTicksInOneZone(mine, settings) && Lists(rows, SeenBy(mine)) && o in rows && forall e :: e in mine ==> DayOf(e.ts) == day
    ensures OnSomeTick(o.time, DayStart(day), DayStart(day) + 86400.0, StepOf(settings.interval, settings.daySeconds))
  {
    var e :| e in mine && o == Observation(SecondsOf(e.ts), e.zone);
    var k :| e.ts as real == TickInstant(k, settings);
    TickInSeconds(k, e.ts, settings);
    EventOnDay(e.ts, day);
    TickOnDay(k, day, settings);
    assert IsTick(o.time, k, StepOf(settings.interval, settings.daySeconds));
  }

  lemma RowsAreAtTicks(rows: seq<Observation>, ks: seq<int>, start: real, end: real, step: real)
    requires step > 0.0 && |rows| == |ks| && forall i, j :: 0 <= i < j < |ks| ==> ks[i] < ks[j]
    requires forall i :: 0 <= i < |rows| ==> IsTick(rows[i].time, ks[i], step) && TickIn(ks[i], start, end, step)
    ensures AtTicks(rows, ks, start, end, step)
  {}

  lemma TicksToCount(day: int, settings: Settings)
    requires HasTick(day, settings) && StepOf(settings.interval, settings.daySeconds) > 0.0
    ensures Expected(DayStart(day), DayStart(day) + 86400.0, StepOf(settings.interval, settings.daySeconds)) >= 1
  {
    var start, step := DayStart(day), StepOf(settings.interval, settings.daySeconds);
    var k :| OnDay(TickInstant(k, settings), day);
    TickOnDay(k, day, settings);
    TicksAreAnInterval(k, start, start + 86400.0, step);
  }

  lemma OccursIsSeen(mine: set<Event>, rows: seq<Observation>, ks: seq<int>, k: int, settings: Settings)
    requires Lists(rows, SeenBy(mine)) && |ks| == |rows| && StepOf(settings.interval, settings.daySeconds) > 0.0
    requires forall i :: 0 <= i < |rows| ==> IsTick(rows[i].time, ks[i], StepOf(settings.interval, settings.daySeconds))
    ensures Occurs(ks, k) <==> SeenAt(mine, TickInstant(k, settings))
  {
    hide *;
    if Occurs(ks, k) {
      var i := OccursAt(ks, k);
      var e := RowHasEvent(mine, rows, rows[i]);
      EventIsAtTick(e, rows[i].time, k, settings);
      SeenThere(mine, e, TickInstant(k, settings));
    }
    if SeenAt(mine, TickInstant(k, settings)) {
      var e := SomeoneSeen(mine, TickInstant(k, settings));
      EventIsAtTick(e, SecondsOf(e.ts), k, settings);
      SeenHasRow(mine, rows, e);
      var i :| 0 <= i < |rows| && rows[i] == Observation(SecondsOf(e.ts), e.zone);
      OneTick(rows[i].time, ks[i], k, StepOf(settings.interval, settings.daySeconds));
      OccursThere(ks, i);
    }
  }

  lemma OccursAt(ks: seq<int>, k: int) returns (i: nat)
    requires Occurs(ks, k)
    ensures i < |ks| && ks[i] == k
  {
    i :| 0 <= i < |ks| && ks[i] == k;
  }

  lemma OccursThere(ks: seq<int>, i: nat)
    requires i < |ks|
    ensures Occurs(ks, ks[i])
  {}

  lemma SomeoneSeen(mine: set<Event>, instant: real) returns (e: Event)
    requires SeenAt(mine, instant)
    ensures e in mine && e.ts as real == instant
  {
    e :| e in mine && e.ts as real == instant;
  }

  lemma SeenThere(mine: set<Event>, e: Event, instant: real)
    requires e in mine && e.ts as real == instant
    ensures SeenAt(mine, instant)
  {}

  lemma RowHasEvent(mine: set<Event>, rows: seq<Observation>, o: Observation) returns (e: Event)
    requires Lists(rows, SeenBy(mine)) && o in rows
    ensures e in mine && o == Observation(SecondsOf(e.ts), e.zone)
  {
    e :| e in mine && o == Observation(SecondsOf(e.ts), e.zone);
  }

  lemma EventIsAtTick(e: Event, time: real, k: int, settings: Settings)
    requires time == SecondsOf(e.ts)
    ensures IsTick(time, k, StepOf(settings.interval, settings.daySeconds)) <==> e.ts as real == TickInstant(k, settings)
  {
    TickInSeconds(k, e.ts, settings);
  }

  lemma OneTick(time: real, a: int, b: int, step: real)
    requires step > 0.0 && IsTick(time, a, step) && IsTick(time, b, step)
    ensures a == b
  {
    SameTick(a, b, step);
  }

  lemma SeenHasRow(mine: set<Event>, rows: seq<Observation>, e: Event)
    requires Lists(rows, SeenBy(mine)) && e in mine
    ensures Observation(SecondsOf(e.ts), e.zone) in rows
  {
    assert Observation(SecondsOf(e.ts), e.zone) in SeenBy(mine);
  }

  lemma SameTick(a: int, b: int, step: real)
    requires step > 0.0 && a as real * step == b as real * step
    ensures a == b
  {
    if a < b {
      ScaleBelow(a as real, b as real, step);
    }
    if b < a {
      ScaleBelow(b as real, a as real, step);
    }
  }
}
