/** Window rows from scratch: what a minute and zone should show, as a function of the events ever delivered. */
module WindowReference {
  import Sums
  import opened Events
  import opened Reference
  import opened Ledgers
  import opened LedgerProof
  import opened ServingRuns
  import opened ServingSystem
  import opened Windows

  ghost function LiveIn(seen: set<Event>, w: WindowKey): set<Event> {
    set e | e in seen && Live(seen, e) && WindowOf(e.ts) == w.start && e.zone == w.zone
  }

  function CompletedOf(events: set<Event>): set<Event> {
    set e | e in events && e.completed
  }

  ghost function TotalFare(events: set<Event>): nat {
    if events == {} then 0 else
      var e :| e in events;
      e.fare + TotalFare(events - {e})
  }

  function RatioOf(part: set<string>, whole: set<string>): Option<real> {
    if whole == {} then None else Some(|part| as real / |whole| as real)
  }

  /** Distinct vehicles, busy and idle ones, completed events and their fares, over the live events of the window. */
  ghost function LiveRow(seen: set<Event>, w: WindowKey): WindowRow {
    var live := LiveIn(seen, w);
    var vehicles := set e | e in live :: e.vehicle;
    WindowRow(|vehicles|, |set e | e in live && e.status != Idle :: e.vehicle|,
              RatioOf(set e | e in live && e.status == Idle :: e.vehicle, vehicles),
              |CompletedOf(live)|, TotalFare(CompletedOf(live)), true)
  }

  lemma {:induction false} LiveHasOnePerId(seen: set<Event>, w: WindowKey)
    ensures OnePerId(LiveIn(seen, w))
  {
    forall a, b | a in LiveIn(seen, w) && b in LiveIn(seen, w) && a.id == b.id ensures a == b {
      assert !BadId(seen, a.id);
    }
  }

  /** The contributions of a window are its live events. */
  lemma {:induction false} MembersAreLive(t: Tables, seen: set<Event>, w: WindowKey)
    requires ContributionsMirror(t, seen)
    ensures Members(t.contributions, w) == IdsOf(LiveIn(seen, w))
    ensures forall e :: e in LiveIn(seen, w) ==> e.id in t.contributions && t.contributions[e.id] == ContributionOf(e)
    ensures forall k :: k in Members(t.contributions, w) ==>
              t.contributions[k].fingerprint in LiveIn(seen, w) && t.contributions[k].fingerprint.id == k
  {
    hide BadId, BadTrip;
    forall k | k in Members(t.contributions, w) ensures k in IdsOf(LiveIn(seen, w)) {
      var e := t.contributions[k].fingerprint;
      assert t.contributions[e.id] == ContributionOf(e);
      assert e in LiveIn(seen, w);
    }
  }

  lemma {:induction false} FaresAreEventFares(cs: Contributions, events: set<Event>)
    requires OnePerId(events) && forall e :: e in events ==> e.id in cs && cs[e.id].fare == e.fare
    ensures IdsOf(events) <= cs.Keys && |IdsOf(events)| == |events| && SumFares(cs, IdsOf(events)) == TotalFare(events)
    decreases events
  {
    if events == {} {
      assert IdsOf(events) == {};
    } else {
      var e :| e in events && TotalFare(events) == e.fare + TotalFare(events - {e});
      FaresAreEventFares(cs, events - {e});
      IdsOfOneLess(events, e);
      Sums.SumTakesAny(Fares(cs), IdsOf(events), e.id);
    }
  }

  lemma IdsOfOneLess(events: set<Event>, e: Event)
    requires OnePerId(events) && e in events
    ensures e.id in IdsOf(events) && IdsOf(events) - {e.id} == IdsOf(events - {e})
  {}

  /** The query over the contributions gives the row that the live events make. */
  lemma {:induction false} AggregateShowsLiveEvents(t: Tables, seen: set<Event>, w: WindowKey)
    requires ContributionsMirror(t, seen)
    ensures Aggregate(t.contributions, w) == LiveRow(seen, w)
  {
    var cs, live := t.contributions, LiveIn(seen, w);
    MembersAreLive(t, seen, w);
    LiveHasOnePerId(seen, w);
    hide LiveIn, ContributionsMirror, Sums.Sum, TotalFare;
    assert Completed(cs, w) == IdsOf(CompletedOf(live));
    FaresAreEventFares(cs, CompletedOf(live));
    SameVehicles(cs, Members(cs, w), live);
  }

  lemma SameVehicles(cs: Contributions, members: set<string>, live: set<Event>)
    requires members <= cs.Keys && forall e :: e in live ==> e.id in members && cs[e.id] == ContributionOf(e)
    requires forall k :: k in members ==> cs[k].fingerprint in live && cs[k].fingerprint.id == k
    ensures (set k | k in members :: cs[k].vehicle) == (set e | e in live :: e.vehicle)
    ensures (set k | k in members && cs[k].status != Idle :: cs[k].vehicle) == (set e | e in live && e.status != Idle :: e.vehicle)
    ensures (set k | k in members && cs[k].status == Idle :: cs[k].vehicle) == (set e | e in live && e.status == Idle :: e.vehicle)
  {
    forall k | k in members ensures cs[k] == ContributionOf(cs[k].fingerprint) {
      assert cs[cs[k].fingerprint.id] == ContributionOf(cs[k].fingerprint);
    }
  }

  /** Right after a merge that affects a window, its row is the from-scratch row over everything delivered so far. */
  lemma {:induction false} CorrectedRowShowsLiveEvents(steps: seq<Step>, topic: Topic, minutes: nat, w: WindowKey)
    requires steps != [] && WellformedSteps(steps) && Wellformed(Deliveries(steps)) && Admissible(Deliveries(steps), topic)
    requires w in AffectedBy(RunSystem(steps[..|steps| - 1], minutes).tables, steps[|steps| - 1])
    ensures var s := RunSystem(steps, minutes); w in s.windows && s.windows[w] == LiveRow(Seen(Deliveries(steps)), w)
  {
    hide Admissible, Run, Seen, AffectedBy, Apply, Aggregate, LiveRow, Mirrors;
    var before, last := RunSystem(steps[..|steps| - 1], minutes), steps[|steps| - 1];
    var now := RunSystem(steps, minutes);
    SystemLedgersAreRuns(steps, minutes);
    RunMirrorsReference(Deliveries(steps), topic);
    MirrorsContributions(now.tables, Seen(Deliveries(steps)));
    AggregateShowsLiveEvents(now.tables, Seen(Deliveries(steps)), w);
    ApplyWindows(before, last, minutes);
    SparkAffectsNothing(before.tables, last);
  }

  /** For every run and every window that was ever corrected: its row is the from-scratch row over everything delivered so
      far exactly if the contributions gained since the last correction add nothing to it. */
  lemma {:induction false} CorrectedRowIsLiveExactly(steps: seq<Step>, topic: Topic, minutes: nat, w: WindowKey)
    requires WellformedSteps(steps) && Wellformed(Deliveries(steps)) && Admissible(Deliveries(steps), topic)
    requires w in AsOf(steps, minutes)
    ensures w in RunSystem(steps, minutes).windows
    ensures var now := RunSystem(steps, minutes);
            now.windows[w] == LiveRow(Seen(Deliveries(steps)), w) <==> AddsNothing(AsOf(steps, minutes)[w], now.tables.contributions, w)
  {
    hide *;
    var now := RunSystem(steps, minutes);
    SystemLedgersAreRuns(steps, minutes);
    RunMirrorsReference(Deliveries(steps), topic);
    MirrorsContributions(now.tables, Seen(Deliveries(steps)));
    AggregateShowsLiveEvents(now.tables, Seen(Deliveries(steps)), w);
    CorrectedRowIsCurrentExactly(steps, minutes, w);
  }

  lemma MirrorsContributions(t: Tables, seen: set<Event>)
    requires Mirrors(t, seen)
    ensures ContributionsMirror(t, seen)
  {
    hide KeysMirror, ConflictsMirror, ContributionsMirror, TripsMirror;
  }

  lemma SparkAffectsNothing(t: Tables, step: Step)
    ensures step.Spark? ==> AffectedBy(t, step) == {}
  {}
}
