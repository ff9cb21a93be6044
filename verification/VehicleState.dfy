/**
 The live vehicle row: the set-based formula of `merge_staged`, the sorted fold of
 `bulk_serve`, and exactly when the two agree.
 */
module VehicleState {
  import Text
  import opened Events

  /** A row of `rt_vehicle_state`, without the trace id that the event id determines. */
  datatype StateRow = StateRow(zone: string, status: Status, idleSince: Option<int>, ts: int, eventId: string)

  type Vehicles = map<string, StateRow>

  predicate Newer(e: Event, row: StateRow) {
    row.ts < e.ts || (row.ts == e.ts && Text.Less(row.eventId, e.id))
  }

  /* ---- ordering a set of events ---- */

  lemma LastIsUnique(events: set<Event>)
    requires OnePerId(events)
    ensures forall l, e :: l in events && e in events ==> Before(l, e) || Before(e, l) || l == e
  {
    forall l, e | l in events && e in events ensures Before(l, e) || Before(e, l) || l == e {
      BeforeIsTotal(l, e);
    }
  }

  /** `DISTINCT ON(vehicle_id) ... ORDER BY event_ts DESC, event_id DESC` */
  function Latest(events: set<Event>): (l: Event)
    requires events != {} && OnePerId(events)
    ensures l in events && forall e :: e in events && e != l ==> Before(e, l)
  {
    LastExists(events);
    LastIsUnique(events);
    var l :| l in events && forall e :: e in events ==> !Before(l, e);
    l
  }

  function Earliest(events: set<Event>): (l: Event)
    requires events != {} && OnePerId(events)
    ensures l in events && forall e :: e in events && e != l ==> Before(l, e)
    decreases events
  {
    var l := Latest(events);
    if events == {l} then l else
      var rest := events - {l};
      assert rest != {} by {
        assert events != {l};
      }
      var first := Earliest(rest);
      assert forall e :: e in events ==> e == l || e in rest;
      first
  }

  /* ---- the set-based formula ---- */

  function OfVehicle(events: set<Event>, vehicle: string): set<Event> {
    set e | e in events && e.vehicle == vehicle
  }

  function IdleOf(events: set<Event>): set<Event> {
    set e | e in events && e.status == Idle
  }

  function BusyOf(events: set<Event>): set<Event> {
    set e | e in events && e.status != Idle
  }

  /** `max(event_ts)`; null over no rows */
  function MaxTs(events: set<Event>): (m: Option<int>)
    requires OnePerId(events)
    ensures m.None? <==> events == {}
    ensures m.Some? ==> (exists e :: e in events && e.ts == m.value) && forall e :: e in events ==> e.ts <= m.value
  {
    if events == {} then None else Some(Latest(events).ts)
  }

  /** `min(event_ts)`; null over no rows */
  function MinTs(events: set<Event>): (m: Option<int>)
    requires OnePerId(events)
    ensures m.None? <==> events == {}
    ensures m.Some? ==> (exists e :: e in events && e.ts == m.value) && forall e :: e in events ==> m.value <= e.ts
  {
    if events == {} then None else Some(Earliest(events).ts)
  }

  /** SQL's LEAST ignores nulls. */
  function Least(a: Option<int>, b: Option<int>): Option<int> {
    if a.None? then b else if b.None? || a.value <= b.value then a else b
  }

  /** The CASE expression for `idle_since`. */
  function IdleSince(prior: Option<StateRow>, events: set<Event>, l: Event): Option<int>
    requires OnePerId(events)
  {
    var lastBusy := MaxTs(BusyOf(events));
    if l.status != Idle then None
    else if lastBusy.None? && prior.Some? && prior.value.status == Idle then
      Least(prior.value.idleSince, MinTs(IdleOf(events)))
    else
      MinTs(set e | e in IdleOf(events) && (lastBusy.None? || e.ts > lastBusy.value))
  }

  /** A row of `stage_state_candidates`. */
  function Candidate(prior: Option<StateRow>, events: set<Event>): StateRow
    requires events != {} && OnePerId(events)
  {
    var l := Latest(events);
    StateRow(l.zone, l.status, IdleSince(prior, events, l), l.ts, l.id)
  }

  /** The guarded upsert: the candidate replaces the row only when it is newer. */
  function SetBased(prior: Option<StateRow>, events: set<Event>): Option<StateRow>
    requires OnePerId(events)
  {
    if events == {} then prior
    else if prior.Some? && !Newer(Latest(events), prior.value) then prior
    else Some(Candidate(prior, events))
  }

  /* ---- the sequential fold ---- */

  function FoldStep(prior: Option<StateRow>, e: Event): Option<StateRow> {
    if prior.Some? && !Newer(e, prior.value) then prior
    else
      var idle :=
        if e.status != Idle then None
        else if prior.Some? && prior.value.status == Idle then prior.value.idleSince
        else Some(e.ts);
      Some(StateRow(e.zone, e.status, idle, e.ts, e.id))
  }

  function Fold(prior: Option<StateRow>, events: seq<Event>): Option<StateRow> {
    if events == [] then prior else FoldStep(Fold(prior, events[..|events| - 1]), events[|events| - 1])
  }

  predicate Sorted(events: seq<Event>) {
    forall i, j :: 0 <= i < j < |events| ==> Before(events[i], events[j])
  }

  /* ---- when the two agree ---- */

  /** The events of a sorted batch that are not after the stored row: the fold skips them. They form a prefix. */
  function LateCount(prior: Option<StateRow>, events: seq<Event>): (n: nat)
    ensures n <= |events|
  {
    if events == [] || prior.None? then 0
    else LateCount(prior, events[..|events| - 1]) + if Newer(events[|events| - 1], prior.value) then 0 else 1
  }

  /** Start of the idle run at the end: the index after the last busy event. */
  function RunStart(events: seq<Event>): (s: nat)
    ensures s <= |events|
    ensures forall k :: s <= k < |events| ==> events[k].status == Idle
    ensures s > 0 ==> events[s - 1].status != Idle
  {
    if events == [] then 0
    else if events[|events| - 1].status != Idle then |events|
    else RunStart(events[..|events| - 1])
  }

  lemma NewerStaysNewer(a: Event, b: Event, row: StateRow)
    requires Newer(a, row) && Before(a, b)
    ensures Newer(b, row)
  {
    if row.ts == a.ts == b.ts {
      Text.LessIsTransitive(row.eventId, a.id, b.id);
    }
  }

  predicate IsLate(prior: Option<StateRow>, e: Event) {
    prior.Some? && !Newer(e, prior.value)
  }

  lemma {:induction false} LateArePrefix(prior: Option<StateRow>, events: seq<Event>)
    requires Sorted(events)
    ensures var n := LateCount(prior, events);
            forall i :: 0 <= i < |events| ==> (i < n <==> IsLate(prior, events[i]))
  {
    if events != [] && prior.Some? {
      var most, l := events[..|events| - 1], events[|events| - 1];
      LateArePrefix(prior, most);
      var n := LateCount(prior, most);
      if n < |most| {
        NewerStaysNewer(most[n], l, prior.value);
      }
    }
  }

  /** What the fold computes, in closed form: late events are skipped, and the closing idle run counts from its first
      event that is not late, unless it continues the stored idle row. */
  lemma {:induction false} FoldClosedForm(prior: Option<StateRow>, events: seq<Event>)
    requires Sorted(events)
    ensures var n, s := LateCount(prior, events), RunStart(events);
            Fold(prior, events) ==
            if n == |events| then prior
            else
              var l := events[|events| - 1];
              Some(StateRow(l.zone, l.status,
                if s == |events| then None
                else if s <= n && prior.Some? && prior.value.status == Idle then prior.value.idleSince
                else Some(events[if s > n then s else n].ts), l.ts, l.id))
  {
    if events != [] {
      var most, l := events[..|events| - 1], events[|events| - 1];
      FoldClosedForm(prior, most);
      LateArePrefix(prior, events);
      if most != [] {
        assert Before(most[|most| - 1], l);
      }
    }
  }

  lemma {:induction false} SortedHasOnePerId(events: seq<Event>)
    requires Sorted(events) && OnePerId(EventSet(events))
    ensures forall i, j :: 0 <= i < j < |events| ==> events[i] != events[j] && events[i].ts <= events[j].ts
  {
    forall i, j | 0 <= i < j < |events| ensures events[i] != events[j] {
      BeforeIsTotal(events[i], events[i]);
    }
  }

  lemma LatestIsLast(events: seq<Event>)
    requires events != [] && Sorted(events) && OnePerId(EventSet(events))
    ensures EventSet(events) != {} && Latest(EventSet(events)) == events[|events| - 1]
  {
    var l := events[|events| - 1];
    assert l in EventSet(events);
    LastIsUnique(EventSet(events));
    var m := Latest(EventSet(events));
    var i :| 0 <= i < |events| && events[i] == m;
    BeforeIsTotal(m, l);
  }

  lemma MaxIsAt(events: set<Event>, e: Event)
    requires OnePerId(events) && e in events && forall f :: f in events ==> f.ts <= e.ts
    ensures MaxTs(events) == Some(e.ts)
  {}

  lemma BusyIsBeforeRun(events: seq<Event>, s: nat, e: Event)
    requires 0 < s <= |events| && forall i, j :: 0 <= i < j < |events| ==> events[i].ts <= events[j].ts
    requires forall k :: s <= k < |events| ==> events[k].status == Idle
    requires e in events && e.status != Idle
    ensures e.ts <= events[s - 1].ts
  {
    var i :| 0 <= i < |events| && events[i] == e;
    assert i <= s - 1;
  }

  /** The busy events of a sorted batch end right before the closing idle run. */
  lemma {:induction false} LastBusyIsBeforeRun(events: seq<Event>)
    requires Sorted(events) && OnePerId(EventSet(events))
    ensures OnePerId(BusyOf(EventSet(events)))
    ensures var s, busy := RunStart(events), MaxTs(BusyOf(EventSet(events)));
            busy == if s == 0 then None else Some(events[s - 1].ts)
  {
    SortedHasOnePerId(events);
    RunShape(events);
    var s, busy := RunStart(events), BusyOf(EventSet(events));
    assert OnePerId(busy);
    hide Text.Less, Before, RunStart, Sorted, OnePerId, MaxTs;
    if s == 0 {
      assert busy == {};
    } else {
      assert events[s - 1] in busy;
      forall e | e in busy ensures e.ts <= events[s - 1].ts {
        BusyIsBeforeRun(events, s, e);
      }
      MaxIsAt(busy, events[s - 1]);
    }
  }

  /** With no busy event the earliest idle start is the first event. */
  lemma FirstIdleIsFirst(events: seq<Event>)
    requires events != [] && Sorted(events) && OnePerId(EventSet(events)) && RunStart(events) == 0
    ensures MinTs(IdleOf(EventSet(events))) == Some(events[0].ts)
    ensures IdleOf(EventSet(events)) == EventSet(events)
  {
    hide Text.Less, Before;
    SortedHasOnePerId(events);
    assert events[0] in IdleOf(EventSet(events));
    forall e | e in EventSet(events) ensures e.status == Idle && events[0].ts <= e.ts {
      var i :| 0 <= i < |events| && events[i] == e;
    }
  }

  /** The idle start after the last busy event is the start of the run, unless the run starts at the same instant. */
  lemma {:induction false} IdleAfterBusy(events: seq<Event>, s: nat)
    requires Sorted(events) && OnePerId(EventSet(events)) && s == RunStart(events) && 0 < s < |events|
    ensures var later := set e | e in IdleOf(EventSet(events)) && e.ts > events[s - 1].ts;
            MinTs(later) == Some(events[s].ts) <==> events[s].ts != events[s - 1].ts
  {
    SortedHasOnePerId(events);
    RunShape(events);
    var later := set e | e in IdleOf(EventSet(events)) && e.ts > events[s - 1].ts;
    assert OnePerId(later);
    hide Text.Less, Before, RunStart, Sorted, OnePerId, MinTs;
    forall e | e in later ensures events[s].ts <= e.ts {
      LaterIsInRun(events, s, e);
    }
    if events[s].ts != events[s - 1].ts {
      assert events[s] in later;
      MinIsAt(later, events[s]);
    } else {
      MinIsNot(later, events[s].ts);
    }
  }

  lemma LaterIsInRun(events: seq<Event>, s: nat, e: Event)
    requires 0 < s < |events| && forall i, j :: 0 <= i < j < |events| ==> events[i].ts <= events[j].ts
    requires e in events && e.ts > events[s - 1].ts
    ensures events[s].ts <= e.ts
  {
    var i :| 0 <= i < |events| && events[i] == e;
    assert i >= s;
  }

  lemma MinIsAt(events: set<Event>, e: Event)
    requires OnePerId(events) && e in events && forall f :: f in events ==> e.ts <= f.ts
    ensures MinTs(events) == Some(e.ts)
  {}

  lemma MinIsNot(events: set<Event>, ts: int)
    requires OnePerId(events) && forall f :: f in events ==> ts < f.ts
    ensures MinTs(events) != Some(ts)
  {}

  lemma RunShape(events: seq<Event>)
    ensures var s := RunStart(events);
            && s <= |events|
            && (forall k :: s <= k < |events| ==> events[k].status == Idle)
            && (s > 0 ==> events[s - 1].status != Idle)
  {}

  /** The idle events after the instant of the last busy one; all of them when there is none. */
  ghost function LaterIdle(events: seq<Event>): set<Event> {
    var s := RunStart(events);
    set e | e in IdleOf(EventSet(events)) && (s == 0 || e.ts > events[s - 1].ts)
  }

  /** The idle start of the CASE expression, for a batch that ends idle. */
  lemma {:induction false} IdleSinceClosedForm(prior: Option<StateRow>, events: seq<Event>)
    requires Sorted(events) && OnePerId(EventSet(events)) && RunStart(events) < |events|
    ensures IdleSince(prior, EventSet(events), events[|events| - 1]) ==
            if RunStart(events) == 0 && prior.Some? && prior.value.status == Idle
            then Least(prior.value.idleSince, Some(events[0].ts))
            else MinTs(LaterIdle(events))
    ensures RunStart(events) == 0 ==> MinTs(LaterIdle(events)) == Some(events[0].ts)
  {
    var s := RunStart(events);
    LastBusyIsBeforeRun(events);
    RunShape(events);
    if s == 0 {
      FirstIdleIsFirst(events);
    }
    LaterIdleMembers(events);
    hide RunStart, Sorted, MaxTs, MinTs, IdleOf, BusyOf, EventSet, OnePerId, LaterIdle;
  }

  lemma LaterIdleMembers(events: seq<Event>)
    requires Sorted(events) && OnePerId(EventSet(events))
    ensures OnePerId(BusyOf(EventSet(events)))
    ensures var idle, lastBusy := IdleOf(EventSet(events)), MaxTs(BusyOf(EventSet(events)));
            && LaterIdle(events) == (set e | e in idle && (lastBusy.None? || e.ts > lastBusy.value))
            && (RunStart(events) == 0 ==> LaterIdle(events) == idle)
  {
    LastBusyIsBeforeRun(events);
    hide RunStart, Sorted, MaxTs, IdleOf, BusyOf, EventSet, OnePerId;
  }

  /** The two forms store the same row: nothing is new, the batch ends busy, or the idle starts coincide. */
  ghost predicate FormsAgree(prior: Option<StateRow>, events: seq<Event>)
    requires OnePerId(EventSet(events))
  {
    var n, s := LateCount(prior, events), RunStart(events);
    || n == |events|
    || s == |events|
    || if s > n then events[s].ts != events[s - 1].ts
       else if prior.Some? && prior.value.status == Idle then
         if s == 0 then prior.value.idleSince.Some? && prior.value.idleSince.value <= events[0].ts
         else MinTs(LaterIdle(events)) == prior.value.idleSince
       else MinTs(LaterIdle(events)) == Some(events[n].ts)
  }

  lemma {:induction false} SetBasedClosedForm(prior: Option<StateRow>, events: seq<Event>)
    requires Sorted(events) && OnePerId(EventSet(events))
    ensures SetBased(prior, EventSet(events)) ==
            if LateCount(prior, events) == |events| then prior
            else
              var l := events[|events| - 1];
              Some(StateRow(l.zone, l.status, IdleSince(prior, EventSet(events), l), l.ts, l.id))
  {
    LateArePrefix(prior, events);
    if events == [] {
      assert EventSet(events) == {};
    } else {
      LatestIsLast(events);
    }
  }

  /** For any stored row and any batch, late events included: the set-based formula stores what the sorted fold stores
      exactly when nothing is new, the batch ends busy, or the two idle starts coincide. */
  lemma {:induction false} SetBasedMeetsFold(prior: Option<StateRow>, events: seq<Event>)
    requires Sorted(events) && OnePerId(EventSet(events))
    ensures SetBased(prior, EventSet(events)) == Fold(prior, events) <==> FormsAgree(prior, events)
  {
    FoldClosedForm(prior, events);
    SetBasedClosedForm(prior, events);
    var n, s := LateCount(prior, events), RunStart(events);
    RunShape(events);
    hide LateCount, RunStart, Fold, SetBased, Sorted;
    if n < |events| {
      if s == |events| {
        assert IdleSince(prior, EventSet(events), events[|events| - 1]) == None;
      } else {
        IdleSinceClosedForm(prior, events);
        if s > n {
          IdleAfterBusy(events, s);
          assert LaterIdle(events) == set e | e in IdleOf(EventSet(events)) && e.ts > events[s - 1].ts;
        }
      }
    }
  }

  /* ---- batches that come after the stored row ---- */

  predicate AllNewer(prior: Option<StateRow>, events: seq<Event>) {
    prior.Some? ==> forall e :: e in events ==> Newer(e, prior.value)
  }

  /** What every stored row satisfies: an idle start belongs to an idle row and is not in its future. */
  predicate Proper(row: StateRow) {
    row.idleSince.Some? ==> row.status == Idle && row.idleSince.value <= row.ts
  }

  predicate ProperOrAbsent(prior: Option<StateRow>) {
    prior.Some? ==> Proper(prior.value)
  }

  /** An idle event shares its instant with the last busy event and sorts after it. */
  ghost predicate IdleTie(events: seq<Event>) {
    exists i :: 0 <= i < |events| - 1 && TieAt(events, i)
  }

  ghost predicate TieAt(events: seq<Event>, i: int)
    requires 0 <= i < |events| - 1
  {
    events[i].status != Idle && events[i + 1].ts == events[i].ts && forall k :: i < k < |events| ==> events[k].status == Idle
  }

  /** The stored row is idle without a start, and the batch is all idle. */
  ghost predicate UnknownStart(prior: Option<StateRow>, events: seq<Event>) {
    && prior.Some? && prior.value.status == Idle && prior.value.idleSince.None?
    && events != [] && forall e :: e in events ==> e.status == Idle
  }

  lemma {:induction false} TieIsAtRunStart(events: seq<Event>)
    ensures var s := RunStart(events); IdleTie(events) <==> 0 < s < |events| && events[s].ts == events[s - 1].ts
  {
    var s := RunStart(events);
    if 0 < s < |events| {
      assert events[s].ts == events[s - 1].ts ==> TieAt(events, s - 1);
    }
    forall i | 0 <= i < |events| - 1 && TieAt(events, i) ensures i + 1 == s {}
  }

  /** Without late events only two things can go wrong: an idle event at the instant of the last busy one, and a stored
      idle row whose start is unknown. */
  lemma {:induction false} NewerBatchesAgree(prior: Option<StateRow>, events: seq<Event>)
    requires Sorted(events) && OnePerId(EventSet(events)) && AllNewer(prior, events) && ProperOrAbsent(prior)
    ensures SetBased(prior, EventSet(events)) == Fold(prior, events) <==> !IdleTie(events) && !UnknownStart(prior, events)
  {
    SetBasedMeetsFold(prior, events);
    TieIsAtRunStart(events);
    if events != [] {
      NothingLate(prior, events);
      UnknownStartIsAllIdle(prior, events);
      if RunStart(events) == 0 {
        IdleSinceClosedForm(prior, events);
      }
      hide SetBased, Fold, IdleTie, UnknownStart, RunStart, LateCount, AllNewer, MinTs, LaterIdle, IdleSince, Sorted, EventSet, OnePerId;
    }
  }

  lemma NothingLate(prior: Option<StateRow>, events: seq<Event>)
    requires events != [] && Sorted(events) && AllNewer(prior, events)
    ensures LateCount(prior, events) == 0 && (prior.Some? ==> prior.value.ts <= events[0].ts)
  {
    LateArePrefix(prior, events);
    assert events[0] in events;
  }

  lemma UnknownStartIsAllIdle(prior: Option<StateRow>, events: seq<Event>)
    requires events != []
    ensures UnknownStart(prior, events) <==>
            prior.Some? && prior.value.status == Idle && prior.value.idleSince.None? && RunStart(events) == 0
  {}

  /** Distinct timestamps after a row whose idle start is known: the two paths store the same row. */
  lemma DistinctTimesAgree(prior: Option<StateRow>, events: seq<Event>)
    requires Sorted(events) && OnePerId(EventSet(events)) && AllNewer(prior, events) && ProperOrAbsent(prior)
    requires forall i, j :: 0 <= i < j < |events| ==> events[i].ts != events[j].ts
    requires prior.Some? && prior.value.status == Idle ==> prior.value.idleSince.Some?
    ensures SetBased(prior, EventSet(events)) == Fold(prior, events)
  {
    NewerBatchesAgree(prior, events);
  }
}
