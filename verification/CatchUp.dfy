/** One day's run and the budgeted sweep over all days, as functions of the tables, and what repeated sweeps achieve. */
module CatchUp {
  import Text
  import opened Events
  import opened Manifests
  import opened Publication
  import opened DayInputs
  import opened Reports
  import opened ReportProof

  /** What a day's run comes to: not its turn yet, nothing to do, published, or an exception. */
  datatype Outcome = Deferred | Unchanged | Changed | Broken

  ghost predicate AllDescribed(batches: seq<BatchRow>) {
    forall b :: b in batches ==> b.manifest.Some?
  }

  predicate Closed(w: World, at: int) {
    w.latest.Some? && w.latest.value >= (at + 1) * DAY
  }

  ghost function Assess(lib: Library, w: World, s: State, day: string): Outcome {
    if lib.ordinal(day).None? then Broken
    else if day in s.workers || !Closed(w, lib.ordinal(day).value) then Deferred
    else if day !in w.landing || !AllDescribed(w.batches) then Broken
    else if UpToDate(s, day, InputsOf(w, day)) then Unchanged
    else if Recompute(lib, w, day).Computed? then Changed
    else Broken
  }

  /** A day waits exactly while the newest committed event lies on it or before it, or there is none. */
  lemma WaitsExactly(lib: Library, w: World, s: State, day: string)
    ensures lib.ordinal(day).Some? && day !in s.workers ==>
              (Assess(lib, w, s, day) == Deferred <==> w.latest.None? || DayOf(w.latest.value) <= lib.ordinal(day).value)
    ensures Assess(lib, w, s, day) in {Changed, Unchanged} ==> BeforeNewest(lib, w, day)
  {
    hide UpToDate, Recompute, InputsOf, AllDescribed;
    if w.latest.Some? {
      CalendarOf(w.latest.value);
    }
  }

  /** The day is over: it lies strictly before the day of the newest committed event. */
  predicate BeforeNewest(lib: Library, w: World, day: string) {
    lib.ordinal(day).Some? && w.latest.Some? && lib.ordinal(day).value < DayOf(w.latest.value)
  }

  function RunsOf(s: State, which: set<nat>, day: string): set<nat> {
    set r | r in which && r in s.runs && s.runs[r].day == day
  }

  /** The remaining file writes of a worker. */
  function WroteAll(lib: Library, s: State, day: string): (t: State)
    requires day in s.workers && s.workers[day].Exporting? && s.workers[day].written <= |FORMATS|
    ensures day in t.workers && t.workers[day] == s.workers[day].(written := |FORMATS|)
    ensures s.files.Keys <= t.files.Keys
    ensures forall i :: s.workers[day].written <= i < |FORMATS| ==> Target(day, FORMATS[i]) in t.files
    decreases |FORMATS| - s.workers[day].written
  {
    if s.workers[day].written == |FORMATS| then s
    else
      assert Target(day, FORMATS[s.workers[day].written]) in Wrote(lib, s, day).files;
      WroteAll(lib, Wrote(lib, s, day), day)
  }

  lemma AllTargetsWritten(lib: Library, s: State, day: string)
    requires day in s.workers && s.workers[day].Exporting? && s.workers[day].written == 0
    ensures Exported(WroteAll(lib, s, day), day)
  {
    var t := WroteAll(lib, s, day);
    forall f | f in FORMATS ensures Target(day, f) in t.files {
      var i :| 0 <= i < |FORMATS| && FORMATS[i] == f;
    }
  }

  /** Replacement, four writes, publication. */
  function PublishedDay(lib: Library, s: State, day: string, report: DayReport): State
    requires day in s.workers
  {
    var replaced := Replaced(s, day, report);
    AllTargetsWritten(lib, replaced, day);
    Concluded(WroteAll(lib, replaced, day), day)
  }

  /** The tables after one undisturbed run of a day. The recovery of stalled runs is written first but belongs to the outer
      transaction: it takes effect when the run returns, and is rolled back when the run raises. */
  ghost function AfterDay(lib: Library, w: World, s: State, day: string): State {
    if lib.ordinal(day).None? || day in s.workers then s
    else
      var stalled := RunsOf(s, w.stalled, day);
      match Assess(lib, w, s, day)
      case Deferred => Recovered(s, stalled)
      case Unchanged => Recovered(Superseding(s, day), stalled)
      case Broken =>
        if day !in w.landing || !AllDescribed(w.batches) then s
        else Close(Began(s, day, InputsOf(w, day)), day, Failed(false))
      case Changed => Recovered(PublishedDay(lib, Began(s, day, InputsOf(w, day)), day, Recompute(lib, w, day).report), stalled)
  }

  /* ---- an undisturbed run is a run of the state machine ---- */

  predicate OnlyDay(steps: seq<Step>, day: string) {
    forall i :: 0 <= i < |steps| ==> steps[i].Recover? || steps[i].day == day
  }

  /** Steps that lead from s to t and concern no other day. */
  ghost predicate DaySteps(lib: Library, s: State, t: State, day: string) {
    exists steps :: CanRun(lib, s, steps) && RunSteps(lib, s, steps) == t && OnlyDay(steps, day)
  }

  lemma NoStep(lib: Library, s: State, day: string)
    ensures DaySteps(lib, s, s, day)
  {
    assert CanRun(lib, s, []) && RunSteps(lib, s, []) == s;
  }

  lemma StepThen(lib: Library, s: State, step: Step, t: State, day: string)
    requires Enabled(lib, s, step) && (step.Recover? || step.day == day) && DaySteps(lib, Take(lib, s, step), t, day)
    ensures DaySteps(lib, s, t, day)
  {
    hide Enabled, Take;
    var rest :| CanRun(lib, Take(lib, s, step), rest) && RunSteps(lib, Take(lib, s, step), rest) == t && OnlyDay(rest, day);
    var steps := [step] + rest;
    assert steps[1..] == rest && steps[0] == step;
    assert CanRun(lib, s, steps) && RunSteps(lib, s, steps) == t;
  }

  lemma {:induction false} WritesAreSteps(lib: Library, s: State, day: string, t: State)
    requires day in s.workers && s.workers[day].Exporting? && s.workers[day].written <= |FORMATS|
    requires DaySteps(lib, WroteAll(lib, s, day), t, day)
    ensures DaySteps(lib, s, t, day)
    decreases |FORMATS| - s.workers[day].written
  {
    hide DaySteps;
    if s.workers[day].written < |FORMATS| {
      WritesAreSteps(lib, Wrote(lib, s, day), day, t);
      assert Enabled(lib, s, WriteNext(day));
      StepThen(lib, s, WriteNext(day), t, day);
    }
  }

  lemma {:induction false} PublicationIsSteps(lib: Library, s: State, day: string, report: DayReport, t: State)
    requires day in s.workers && s.workers[day].Started? && Compute(lib, day, s.workers[day].inputs) == Computed(report)
    requires DaySteps(lib, PublishedDay(lib, s, day, report), t, day)
    ensures DaySteps(lib, s, t, day)
  {
    hide DaySteps, Compute, Concluded;
    var replaced := Replaced(s, day, report);
    AllTargetsWritten(lib, replaced, day);
    StepThen(lib, WroteAll(lib, replaced, day), Publish(day), t, day);
    WritesAreSteps(lib, replaced, day, t);
    StepThen(lib, s, Replace(day), t, day);
  }

  /** Recovery leaves everything but run records. */
  lemma RecoveryKeepsAnswers(lib: Library, w: World, s: State, stalled: set<nat>, day: string)
    ensures Assess(lib, w, Recovered(s, stalled), day) == Assess(lib, w, s, day)
  {
    hide Recompute, InputsOf, Matches;
  }

  lemma {:induction false} DayIsARun(lib: Library, w: World, s: State, day: string)
    requires DataOnly(w.batches)
    ensures DaySteps(lib, s, AfterDay(lib, w, s, day), day)
  {
    hide DaySteps, Recompute, Compute, InputsOf, Matches, AllPass, PublishedDay, FilesOf, Recovered, Superseding, RunsOf;
    var t := AfterDay(lib, w, s, day);
    NoStep(lib, t, day);
    if lib.ordinal(day).Some? && day !in s.workers {
      var stalled := RunsOf(s, w.stalled, day);
      match Assess(lib, w, s, day) {
        case Deferred =>
          StepThen(lib, s, Recover(stalled), t, day);
        case Unchanged =>
          StepThen(lib, Superseding(s, day), Recover(stalled), t, day);
          StepThen(lib, s, Skip(day, InputsOf(w, day)), t, day);
        case Broken =>
          if day in w.landing && AllDescribed(w.batches) {
            StepThen(lib, Began(s, day, InputsOf(w, day)), Fail(day), t, day);
            StepThen(lib, s, Begin(day, InputsOf(w, day)), t, day);
          }
        case Changed =>
          PublishingIsARun(lib, w, s, day, stalled);
      }
    }
  }

  lemma {:induction false} PublishingIsARun(lib: Library, w: World, s: State, day: string, stalled: set<nat>)
    requires DataOnly(w.batches) && Assess(lib, w, s, day) == Changed
    ensures DaySteps(lib, s, Recovered(PublishedDay(lib, Began(s, day, InputsOf(w, day)), day, Recompute(lib, w, day).report), stalled), day)
  {
    hide DaySteps, Recompute, Compute, InputsOf, Matches, AllPass, PublishedDay, FilesOf, Recovered;
    var began := Began(s, day, InputsOf(w, day));
    var published := PublishedDay(lib, began, day, Recompute(lib, w, day).report);
    var t := Recovered(published, stalled);
    assert AllPass(w.objects, w.batches, day) by { ComputedNeedsArchive(lib, w, day); }
    DataHasNoBareFile(w.batches, day);
    FingerprintCoversComputation(lib, w, day);
    NoStep(lib, t, day);
    StepThen(lib, published, Recover(stalled), t, day);
    PublicationIsSteps(lib, began, day, Recompute(lib, w, day).report, t);
    StepThen(lib, s, Begin(day, InputsOf(w, day)), t, day);
  }

  lemma ComputedNeedsArchive(lib: Library, w: World, day: string)
    requires day in w.landing && Recompute(lib, w, day).Computed?
    ensures AllPass(w.objects, w.batches, day)
  {}

  /* ---- what a run keeps, for its own day and for the others ---- */

  lemma {:induction false} DayStepsKeep(lib: Library, s: State, steps: seq<Step>, day: string, other: string)
    requires Inv(lib, s) && CanRun(lib, s, steps) && day != other
    requires OnlyDay(steps, day)
    ensures var t := RunSteps(lib, s, steps); SameDay(s, t, other) && SameWorker(s, t, other)
    decreases |steps|
  {
    hide Inv, Take, Enabled, SameDay;
    if steps == [] {
      SameDayRefl(s, other);
    } else {
      var t := Take(lib, s, steps[0]);
      OtherDaysStay(lib, s, steps[0], other);
      StepKeepsInv(lib, s, steps[0]);
      DayStepsKeep(lib, t, steps[1..], day, other);
      SameDayTrans(s, t, RunSteps(lib, t, steps[1..]), other);
    }
  }

  lemma {:induction false} AfterDayKeepsInv(lib: Library, w: World, s: State, day: string)
    requires Inv(lib, s) && DataOnly(w.batches)
    ensures Inv(lib, AfterDay(lib, w, s, day))
  {
    hide AfterDay, Inv;
    DayIsARun(lib, w, s, day);
    var steps :| CanRun(lib, s, steps) && RunSteps(lib, s, steps) == AfterDay(lib, w, s, day) && OnlyDay(steps, day);
    RunKeepsInv(lib, s, steps);
  }

  lemma {:induction false} AfterDayLeavesOthers(lib: Library, w: World, s: State, day: string, other: string)
    requires Inv(lib, s) && DataOnly(w.batches) && day != other
    ensures var t := AfterDay(lib, w, s, day); SameDay(s, t, other) && SameWorker(s, t, other)
  {
    hide AfterDay, Inv;
    DayIsARun(lib, w, s, day);
    var steps :| CanRun(lib, s, steps) && RunSteps(lib, s, steps) == AfterDay(lib, w, s, day) && OnlyDay(steps, day);
    DayStepsKeep(lib, s, steps, day, other);
  }

  /** In sound states a published day with the same inputs is up to date: nothing else moves its files. */
  lemma {:induction false} UpToDateIffPublished(lib: Library, s: State, day: string, inputs: Inputs)
    requires Inv(lib, s)
    ensures UpToDate(s, day, inputs) <==> day in s.status && s.status[day].inputs == inputs && s.status[day].phase == Published
  {
    hide Matches, ManifestOf, Compute;
    if day in s.status && s.status[day].phase == Published {
      assert DaySound(lib, s, day);
      DayMatchesIffUnchanged(s.files, s.files, day);
    }
  }

  lemma {:induction false} SameDaySameAnswer(lib: Library, w: World, s: State, t: State, day: string)
    requires Inv(lib, s) && Inv(lib, t) && SameDay(s, t, day) && SameWorker(s, t, day)
    ensures Assess(lib, w, t, day) == Assess(lib, w, s, day)
  {
    hide Inv, UpToDate, Recompute, InputsOf;
    if day in w.landing {
      UpToDateIffPublished(lib, s, day, InputsOf(w, day));
      UpToDateIffPublished(lib, t, day, InputsOf(w, day));
    }
  }

  lemma PublishedDayIsStored(lib: Library, s: State, day: string, report: DayReport)
    requires day in s.workers
    ensures var t := PublishedDay(lib, s, day, report);
            && day in t.status && t.status[day].inputs == s.workers[day].inputs && t.status[day].phase == Published
            && day in t.rows && t.rows[day] == report
            && t.workers == s.workers - {day}
  {
    hide HasTargets, ManifestOf;
    var replaced := Replaced(s, day, report);
    AllTargetsWritten(lib, replaced, day);
    WritesOnlyFiles(lib, replaced, day);
  }

  lemma {:induction false} WritesOnlyFiles(lib: Library, s: State, day: string)
    requires day in s.workers && s.workers[day].Exporting? && s.workers[day].written <= |FORMATS|
    ensures var t := WroteAll(lib, s, day);
            t.rows == s.rows && t.status == s.status && t.runs == s.runs && t.next == s.next && t.workers - {day} == s.workers - {day}
    decreases |FORMATS| - s.workers[day].written
  {
    if s.workers[day].written < |FORMATS| {
      WritesOnlyFiles(lib, Wrote(lib, s, day), day);
    }
  }

  /** A run that publishes makes its day up to date; any other run gives the same answer again. */
  lemma {:induction false} NextAnswer(lib: Library, w: World, s: State, day: string)
    requires Inv(lib, s) && DataOnly(w.batches)
    ensures Assess(lib, w, AfterDay(lib, w, s, day), day)
         == if Assess(lib, w, s, day) == Changed then Unchanged else Assess(lib, w, s, day)
  {
    AfterDayKeepsInv(lib, w, s, day);
    var t := AfterDay(lib, w, s, day);
    if Assess(lib, w, s, day) == Changed {
      hide Inv, UpToDate, Recompute, InputsOf, PublishedDay, RunsOf;
      PublishedDayIsStored(lib, Began(s, day, InputsOf(w, day)), day, Recompute(lib, w, day).report);
      UpToDateIffPublished(lib, t, day, InputsOf(w, day));
    } else {
      hide Inv, Recompute, InputsOf, PublishedDay;
      QuietDay(lib, w, s, day);
      SameDaySameAnswer(lib, w, s, t, day);
    }
  }

  /** A run that does not publish changes run records only. */
  lemma QuietDay(lib: Library, w: World, s: State, day: string)
    requires Assess(lib, w, s, day) != Changed
    ensures var t := AfterDay(lib, w, s, day);
            t.rows == s.rows && t.status == s.status && t.files == s.files && t.workers == s.workers
            && (forall d :: SameDay(s, t, d) && SameWorker(s, t, d))
  {
    hide UpToDate, Recompute, InputsOf, PublishedDay, SameDay, SameWorker, AllDescribed;
    SameTablesSameDays(s, AfterDay(lib, w, s, day));
  }

  lemma SameTablesSameDays(s: State, t: State)
    requires t.rows == s.rows && t.status == s.status && t.files == s.files && t.workers == s.workers
    ensures forall d :: SameDay(s, t, d) && SameWorker(s, t, d)
  {
    hide Target;
  }

  /** What becomes of stalled runs: they are closed when the day's run returns, and are still running when it raises. Only
      orphans that were closed before are superseded by an unchanged day. */
  lemma {:induction false} OrphansAfterDay(lib: Library, w: World, s: State, day: string, r: nat)
    requires Inv(lib, s) && lib.ordinal(day).Some? && day !in s.workers && r in s.runs && s.runs[r].day == day
    ensures var t, outcome := AfterDay(lib, w, s, day), Assess(lib, w, s, day);
            && r in t.runs
            && (r in w.stalled && s.runs[r].status == Running ==>
                  t.runs[r].status == if outcome == Broken then Running else Failed(true))
            && (s.runs[r].status == Failed(true) ==> t.runs[r].status == if outcome == Unchanged then Superseded else Failed(true))
  {
    hide Recompute, InputsOf, UpToDate, DaySound, WorkerSound, AllDescribed, HasTargets, ManifestOf;
    if Assess(lib, w, s, day) == Changed {
      PublishedRuns(lib, Began(s, day, InputsOf(w, day)), day, Recompute(lib, w, day).report);
      hide PublishedDay;
    }
  }

  /** Run records of other days are not touched. */
  lemma {:induction false} OtherRunsStay(lib: Library, w: World, s: State, day: string, r: nat)
    requires Inv(lib, s) && r in s.runs && s.runs[r].day != day
    ensures r in AfterDay(lib, w, s, day).runs && AfterDay(lib, w, s, day).runs[r] == s.runs[r]
  {
    hide Recompute, InputsOf, UpToDate, DaySound, WorkerSound, AllDescribed, HasTargets, ManifestOf;
    if Assess(lib, w, s, day) == Changed {
      PublishedRuns(lib, Began(s, day, InputsOf(w, day)), day, Recompute(lib, w, day).report);
      hide PublishedDay;
    }
  }

  lemma PublishedRuns(lib: Library, s: State, day: string, report: DayReport)
    requires day in s.workers
    ensures PublishedDay(lib, s, day, report).runs == s.runs[s.workers[day].run := Run(day, Success)]
  {
    hide HasTargets, ManifestOf;
    var replaced := Replaced(s, day, report);
    AllTargetsWritten(lib, replaced, day);
    WritesOnlyFiles(lib, replaced, day);
  }

  /* ---- the sweep ---- */

  datatype Swept = Swept(state: State, published: seq<string>, failed: seq<string>, visited: nat)

  /** Days in the given order until the budget of changed days is used up; an exception only marks its day. */
  ghost function Sweep(lib: Library, w: World, s: State, days: seq<string>, budget: nat): Swept
    decreases |days|
  {
    if days == [] || budget == 0 then Swept(s, [], [], 0)
    else
      var day, outcome := days[0], Assess(lib, w, s, days[0]);
      var rest := Sweep(lib, w, AfterDay(lib, w, s, day), days[1..], if outcome == Changed then budget - 1 else budget);
      Swept(rest.state,
            if outcome == Changed then [day] + rest.published else rest.published,
            if outcome == Broken then [day] + rest.failed else rest.failed,
            rest.visited + 1)
  }

  /** The days of a list that give a certain answer, in list order. */
  ghost function Answering(lib: Library, w: World, s: State, days: seq<string>, outcome: Outcome): seq<string> {
    if days == [] then []
    else
      var rest := Answering(lib, w, s, days[1..], outcome);
      if Assess(lib, w, s, days[0]) == outcome then [days[0]] + rest else rest
  }

  predicate Distinct(days: seq<string>) {
    forall i, j :: 0 <= i < j < |days| ==> days[i] != days[j]
  }

  function Least(a: nat, b: nat): nat {
    if a < b then a else b
  }

  lemma {:induction false} SameAnswers(lib: Library, w: World, s: State, t: State, days: seq<string>, outcome: Outcome)
    requires forall d :: d in days ==> Assess(lib, w, s, d) == Assess(lib, w, t, d)
    ensures Answering(lib, w, s, days, outcome) == Answering(lib, w, t, days, outcome)
    decreases |days|
  {
    hide Assess;
    if days != [] {
      assert days[0] in days;
      SameAnswers(lib, w, s, t, days[1..], outcome);
    }
  }

  lemma HeadIsNotInTail(days: seq<string>)
    requires days != [] && Distinct(days)
    ensures days[0] !in days[1..] && Distinct(days[1..])
  {}

  lemma PrefixIsDistinct(days: seq<string>, n: nat)
    requires n <= |days| && Distinct(days)
    ensures Distinct(days[..n])
  {}

  lemma {:induction false} SweepLeavesOthers(lib: Library, w: World, s: State, days: seq<string>, budget: nat, other: string)
    requires Inv(lib, s) && DataOnly(w.batches) && other !in days
    ensures var t := Sweep(lib, w, s, days, budget).state; Inv(lib, t) && SameDay(s, t, other) && SameWorker(s, t, other)
    decreases |days|
  {
    hide Inv, AfterDay, Assess, SameDay;
    if days == [] || budget == 0 {
      SameDayRefl(s, other);
    } else {
      var t := AfterDay(lib, w, s, days[0]);
      AfterDayKeepsInv(lib, w, s, days[0]);
      AfterDayLeavesOthers(lib, w, s, days[0], other);
      var left := if Assess(lib, w, s, days[0]) == Changed then budget - 1 else budget;
      SweepLeavesOthers(lib, w, t, days[1..], left, other);
      SameDayTrans(s, t, Sweep(lib, w, t, days[1..], left).state, other);
    }
  }

  lemma {:induction false} SweepKeepsInv(lib: Library, w: World, s: State, days: seq<string>, budget: nat)
    requires Inv(lib, s) && DataOnly(w.batches)
    ensures Inv(lib, Sweep(lib, w, s, days, budget).state)
    decreases |days|
  {
    hide Inv, AfterDay, Assess;
    if days != [] && budget > 0 {
      AfterDayKeepsInv(lib, w, s, days[0]);
      SweepKeepsInv(lib, w, AfterDay(lib, w, s, days[0]), days[1..], if Assess(lib, w, s, days[0]) == Changed then budget - 1 else budget);
    }
  }

  /** The other days answer after a day's run as they did before. */
  lemma {:induction false} TailAnswersStay(lib: Library, w: World, s: State, days: seq<string>, outcome: Outcome)
    requires Inv(lib, s) && DataOnly(w.batches) && days != [] && Distinct(days)
    ensures var t := AfterDay(lib, w, s, days[0]);
            Answering(lib, w, s, days[1..], outcome) == Answering(lib, w, t, days[1..], outcome)
  {
    hide Inv, AfterDay, Assess;
    var t := AfterDay(lib, w, s, days[0]);
    HeadIsNotInTail(days);
    AfterDayKeepsInv(lib, w, s, days[0]);
    forall d | d in days[1..] ensures Assess(lib, w, s, d) == Assess(lib, w, t, d) {
      AfterDayLeavesOthers(lib, w, s, days[0], d);
      SameDaySameAnswer(lib, w, s, t, d);
    }
    SameAnswers(lib, w, s, t, days[1..], outcome);
  }

  /** A sweep publishes exactly the first min(budget, n) of the n publishable days in its order, however many
      others fail, wait or are unchanged, and leaves exactly the rest of them publishable. */
  lemma {:induction false} SweepPublishes(lib: Library, w: World, s: State, days: seq<string>, budget: nat)
    requires Inv(lib, s) && DataOnly(w.batches) && Distinct(days)
    ensures var stale, r := Answering(lib, w, s, days, Changed), Sweep(lib, w, s, days, budget);
            var k := Least(budget, |stale|);
            && r.published == stale[..k]
            && Answering(lib, w, r.state, days, Changed) == stale[k..]
    decreases |days|
  {
    hide Inv, AfterDay, Assess;
    if days != [] && budget > 0 {
      var day, rest := days[0], days[1..];
      var outcome, t := Assess(lib, w, s, day), AfterDay(lib, w, s, day);
      var left := if outcome == Changed then budget - 1 else budget;
      var u := Sweep(lib, w, t, rest, left).state;
      HeadIsNotInTail(days);
      AfterDayKeepsInv(lib, w, s, day);
      TailAnswersStay(lib, w, s, days, Changed);
      SweepPublishes(lib, w, t, rest, left);
      NextAnswer(lib, w, s, day);
      SweepLeavesOthers(lib, w, t, rest, left, day);
      SameDaySameAnswer(lib, w, t, u, day);
    }
  }

  /** The days reported as failed are the broken ones among those visited, and a sweep stops early only
      when its budget is used up. */
  lemma {:induction false} SweepReportsFailures(lib: Library, w: World, s: State, days: seq<string>, budget: nat)
    requires Inv(lib, s) && DataOnly(w.batches) && Distinct(days)
    ensures var r := Sweep(lib, w, s, days, budget);
            && r.visited <= |days|
            && r.failed == Answering(lib, w, s, days[..r.visited], Broken)
            && (r.visited < |days| ==> |r.published| == budget)
    decreases |days|
  {
    hide Inv, AfterDay, Assess;
    if days != [] && budget > 0 {
      var day, rest := days[0], days[1..];
      var outcome, t := Assess(lib, w, s, day), AfterDay(lib, w, s, day);
      var left := if outcome == Changed then budget - 1 else budget;
      HeadIsNotInTail(days);
      AfterDayKeepsInv(lib, w, s, day);
      SweepReportsFailures(lib, w, t, rest, left);
      var v := Sweep(lib, w, t, rest, left).visited;
      assert days[..v + 1] == [day] + rest[..v];
      assert ([day] + rest[..v])[1..] == rest[..v];
      PrefixIsDistinct(days, v + 1);
      TailAnswersStay(lib, w, s, days[..v + 1], Broken);
    }
  }

  /** A sweep over days of which none is publishable changes no rows, no status and no file. */
  lemma {:induction false} QuietSweep(lib: Library, w: World, s: State, days: seq<string>, budget: nat)
    requires Inv(lib, s) && DataOnly(w.batches) && Distinct(days) && Answering(lib, w, s, days, Changed) == []
    ensures var t := Sweep(lib, w, s, days, budget).state; t.rows == s.rows && t.status == s.status && t.files == s.files
    decreases |days|
  {
    hide Inv, AfterDay, Assess;
    if days != [] && budget > 0 {
      var t := AfterDay(lib, w, s, days[0]);
      HeadIsNotInTail(days);
      AfterDayKeepsInv(lib, w, s, days[0]);
      TailAnswersStay(lib, w, s, days, Changed);
      QuietDay(lib, w, s, days[0]);
      QuietSweep(lib, w, t, days[1..], budget);
    }
  }

  /* ---- repeated calls ---- */

  /** The closed simulated days before the newest event. */
  function Calendar(lib: Library, w: World): set<string> {
    if w.latest.None? then {} else set d: int | SIM_START_DAY <= d < DayOf(w.latest.value) :: lib.iso(d)
  }

  function Reversed(days: seq<string>): seq<string> {
    if days == [] then [] else Reversed(days[1..]) + [days[0]]
  }

  /** All landed and closed days, newest first. */
  function DaysOf(lib: Library, w: World): seq<string> {
    Reversed(Text.Sort(w.landing.Keys + Calendar(lib, w)))
  }

  lemma {:induction false} ReversedAt(days: seq<string>, i: nat)
    requires i < |days|
    ensures |Reversed(days)| == |days| && Reversed(days)[i] == days[|days| - 1 - i]
    decreases |days|
  {
    if |days| > 1 {
      ReversedAt(days[1..], if i < |days| - 1 then i else 0);
    }
  }

  /** A simulated day, 1 March 2026 or later, before the day of the newest event. */
  ghost predicate Simulated(lib: Library, w: World, k: int, day: string) {
    w.latest.Some? && 20513 <= k < DayOf(w.latest.value) && lib.iso(k) == day
  }

  /** Newest first, each day once: every day with an expense file, and every simulated day before the newest event's day
      whether or not its expense file has landed. */
  lemma {:induction false} DaysDescend(lib: Library, w: World)
    ensures Distinct(DaysOf(lib, w))
    ensures forall i, j :: 0 <= i < j < |DaysOf(lib, w)| ==> Text.Less(DaysOf(lib, w)[j], DaysOf(lib, w)[i])
    ensures forall d :: d in DaysOf(lib, w) <==> d in w.landing || exists k :: Simulated(lib, w, k, d)
  {
    CalendarDays(lib, w);
    hide Text.Sort, Calendar, Reversed;
    var sorted, days := Text.Sort(w.landing.Keys + Calendar(lib, w)), DaysOf(lib, w);
    SameLength(sorted);
    forall i | 0 <= i < |sorted| ensures days[i] == sorted[|sorted| - 1 - i] {
      ReversedAt(sorted, i);
    }
    forall i, j | 0 <= i < j < |days| ensures Text.Less(days[j], days[i]) && days[i] != days[j] {
      Text.LessIsIrreflexive(days[i]);
    }
    forall d ensures d in days <==> d in sorted {
      if d in sorted {
        var i :| 0 <= i < |sorted| && sorted[i] == d;
        assert days[|sorted| - 1 - i] == d;
      }
    }
  }

  lemma CalendarDays(lib: Library, w: World)
    ensures forall d :: d in Calendar(lib, w) <==> exists k :: Simulated(lib, w, k, d)
  {
    forall d | d in Calendar(lib, w) ensures exists k :: Simulated(lib, w, k, d) {
      var k: int :| SIM_START_DAY <= k < DayOf(w.latest.value) && lib.iso(k) == d;
      assert Simulated(lib, w, k, d);
    }
  }

  lemma SameLength(days: seq<string>)
    ensures |Reversed(days)| == |days|
  {
    if days != [] {
      ReversedAt(days, 0);
    }
  }

  /** One call: close stalled runs if anything was ever committed, then sweep. */
  ghost function Call(lib: Library, w: World, s: State, budget: nat): Swept {
    Sweep(lib, w, if w.batches != [] then Recovered(s, w.stalled) else s, DaysOf(lib, w), budget)
  }

  ghost function Calls(lib: Library, w: World, s: State, budget: nat, k: nat): State {
    if k == 0 then s else Call(lib, w, Calls(lib, w, s, budget, k - 1), budget).state
  }

  ghost function Stale(lib: Library, w: World, s: State): seq<string> {
    Answering(lib, w, s, DaysOf(lib, w), Changed)
  }

  lemma {:induction false} RecoveryIsHarmless(lib: Library, w: World, s: State)
    requires Inv(lib, s)
    ensures var r := Recovered(s, w.stalled);
            Inv(lib, r) && Stale(lib, w, r) == Stale(lib, w, s) && r.rows == s.rows && r.status == s.status && r.files == s.files
  {
    hide Inv, Assess, DaysOf;
    var r := Recovered(s, w.stalled);
    assert Enabled(lib, s, Recover(w.stalled)) && Take(lib, s, Recover(w.stalled)) == r;
    StepKeepsInv(lib, s, Recover(w.stalled));
    forall d ensures Assess(lib, w, s, d) == Assess(lib, w, r, d) {
      RecoveryKeepsAnswers(lib, w, s, w.stalled, d);
    }
    SameAnswers(lib, w, s, r, DaysOf(lib, w), Changed);
  }

  lemma {:induction false} CallPublishes(lib: Library, w: World, s: State, budget: nat)
    requires Inv(lib, s) && DataOnly(w.batches)
    ensures var stale, r := Stale(lib, w, s), Call(lib, w, s, budget);
            && Inv(lib, r.state)
            && r.published == stale[..Least(budget, |stale|)]
            && Stale(lib, w, r.state) == stale[Least(budget, |stale|)..]
  {
    hide Inv, Sweep, DaysOf, Answering;
    DaysDescend(lib, w);
    RecoveryIsHarmless(lib, w, s);
    var from := if w.batches != [] then Recovered(s, w.stalled) else s;
    SweepPublishes(lib, w, from, DaysOf(lib, w), budget);
    SweepKeepsInv(lib, w, from, DaysOf(lib, w), budget);
  }

  /** After k calls with fixed inputs, the first k budgets' worth of stale days are published. */
  lemma {:induction false} CallsPublish(lib: Library, w: World, s: State, budget: nat, k: nat)
    requires Inv(lib, s) && DataOnly(w.batches)
    ensures Inv(lib, Calls(lib, w, s, budget, k))
    ensures Stale(lib, w, Calls(lib, w, s, budget, k)) == Beyond(Stale(lib, w, s), k * budget)
  {
    hide Inv, Call, Stale;
    if k > 0 {
      CallsPublish(lib, w, s, budget, k - 1);
      CallPublishes(lib, w, Calls(lib, w, s, budget, k - 1), budget);
      assert k * budget == (k - 1) * budget + budget;
    }
  }

  /** A run record that is closed stays closed. */
  lemma {:induction false} AfterDayKeepsClosed(lib: Library, w: World, s: State, day: string, r: nat)
    requires Inv(lib, s) && r in s.runs && s.runs[r].status != Running
    ensures r in AfterDay(lib, w, s, day).runs && AfterDay(lib, w, s, day).runs[r].status != Running
  {
    hide Recompute, InputsOf, UpToDate, DaySound, WorkerSound, AllDescribed, HasTargets, ManifestOf;
    if Assess(lib, w, s, day) == Changed {
      PublishedRuns(lib, Began(s, day, InputsOf(w, day)), day, Recompute(lib, w, day).report);
      hide PublishedDay;
    }
  }

  lemma {:induction false} SweepKeepsClosed(lib: Library, w: World, s: State, days: seq<string>, budget: nat, r: nat)
    requires Inv(lib, s) && DataOnly(w.batches) && r in s.runs && s.runs[r].status != Running
    ensures var t := Sweep(lib, w, s, days, budget).state; r in t.runs && t.runs[r].status != Running
    decreases |days|
  {
    hide Inv, AfterDay, Assess;
    if days != [] && budget > 0 {
      AfterDayKeepsInv(lib, w, s, days[0]);
      AfterDayKeepsClosed(lib, w, s, days[0], r);
      SweepKeepsClosed(lib, w, AfterDay(lib, w, s, days[0]), days[1..], if Assess(lib, w, s, days[0]) == Changed then budget - 1 else budget, r);
    }
  }

  /** Once anything was committed, a call closes every stalled run, whatever happens to the days. */
  lemma {:induction false} CallClosesStalled(lib: Library, w: World, s: State, budget: nat, r: nat)
    requires Inv(lib, s) && DataOnly(w.batches) && w.batches != [] && r in s.runs && r in w.stalled
    ensures var t := Call(lib, w, s, budget).state; r in t.runs && t.runs[r].status != Running
  {
    RecoveryIsHarmless(lib, w, s);
    var closed := Recovered(s, w.stalled);
    assert r in closed.runs && closed.runs[r].status != Running;
    CallIsSweep(lib, w, s, budget);
    hide *;
    SweepKeepsClosed(lib, w, closed, DaysOf(lib, w), budget, r);
  }

  /** Every date with a report lies before the day of the newest event that the call saw. */
  ghost predicate ReportsArePast(lib: Library, w: World, s: State) {
    forall day :: day in s.status ==> BeforeNewest(lib, w, day)
  }

  lemma {:induction false} SweepReportsPast(lib: Library, w: World, s: State, days: seq<string>, budget: nat)
    requires Inv(lib, s) && DataOnly(w.batches) && ReportsArePast(lib, w, s)
    ensures ReportsArePast(lib, w, Sweep(lib, w, s, days, budget).state)
    ensures forall day :: day in Sweep(lib, w, s, days, budget).published ==> BeforeNewest(lib, w, day)
    decreases |days|
  {
    hide Inv, AfterDay, Assess, BeforeNewest;
    if days != [] && budget > 0 {
      var day, t := days[0], AfterDay(lib, w, s, days[0]);
      WaitsExactly(lib, w, s, day);
      AfterDayKeepsInv(lib, w, s, day);
      forall d | d in t.status ensures BeforeNewest(lib, w, d) {
        if d != day {
          AfterDayLeavesOthers(lib, w, s, day, d);
        } else if Assess(lib, w, s, day) != Changed {
          QuietDay(lib, w, s, day);
        }
      }
      SweepReportsPast(lib, w, t, days[1..], if Assess(lib, w, s, day) == Changed then budget - 1 else budget);
    }
  }

  /** Calls over a growing archive, each with what it finds. */
  ghost function CallsOver(lib: Library, ws: seq<World>, s: State, budget: nat): State {
    if ws == [] then s else Call(lib, ws[|ws| - 1], CallsOver(lib, ws[..|ws| - 1], s, budget), budget).state
  }

  ghost predicate Growing(ws: seq<World>) {
    && (forall i :: 0 <= i < |ws| ==> DataOnly(ws[i].batches))
    && (forall i, j :: 0 <= i < j < |ws| && ws[i].latest.Some? ==> ws[j].latest.Some? && ws[i].latest.value <= ws[j].latest.value)
  }

  /** No report is ever published for the day of the newest event or a later one. */
  lemma {:induction false} OnlyPastDaysArePublished(lib: Library, ws: seq<World>, budget: nat)
    requires ws != [] && Growing(ws)
    ensures var s := CallsOver(lib, ws, START, budget); Inv(lib, s) && ReportsArePast(lib, ws[|ws| - 1], s)
  {
    var most, w := ws[..|ws| - 1], ws[|ws| - 1];
    var s := CallsOver(lib, most, START, budget);
    assert CallsOver(lib, ws, START, budget) == Call(lib, w, s, budget).state;
    if most == [] {
      assert Inv(lib, START);
      assert ReportsArePast(lib, w, s);
    } else {
      OnlyPastDaysArePublished(lib, most, budget);
      LaterNewest(lib, most[|most| - 1], w, s);
    }
    hide Inv, Call, Sweep, DaysOf, ReportsArePast;
    CallPublishes(lib, w, s, budget);
    RecoveryIsHarmless(lib, w, s);
    RecoveryKeepsPast(lib, w, s);
    SweepReportsPast(lib, w, if w.batches != [] then Recovered(s, w.stalled) else s, DaysOf(lib, w), budget);
    CallIsSweep(lib, w, s, budget);
  }

  lemma LaterNewest(lib: Library, v: World, w: World, s: State)
    requires ReportsArePast(lib, v, s) && (v.latest.Some? ==> w.latest.Some? && v.latest.value <= w.latest.value)
    ensures ReportsArePast(lib, w, s)
  {
    if v.latest.Some? {
      CalendarOf(v.latest.value);
      CalendarOf(w.latest.value);
    }
  }

  lemma RecoveryKeepsPast(lib: Library, w: World, s: State)
    requires ReportsArePast(lib, w, s)
    ensures ReportsArePast(lib, w, Recovered(s, w.stalled))
  {}

  lemma CallIsSweep(lib: Library, w: World, s: State, budget: nat)
    ensures Call(lib, w, s, budget) == Sweep(lib, w, if w.batches != [] then Recovered(s, w.stalled) else s, DaysOf(lib, w), budget)
  {
    hide Sweep, DaysOf, Recovered;
  }

  /** What is left of a list after its first n elements; nothing if it is shorter. */
  function Beyond(days: seq<string>, n: int): seq<string> {
    if n < 0 then days else if n < |days| then days[n..] else []
  }

  /** ceil(n / budget) calls publish every stale day, and the call after that changes no report. */
  lemma {:induction false} CeilCallsPublishAll(lib: Library, w: World, s: State, budget: nat)
    requires Inv(lib, s) && DataOnly(w.batches) && budget > 0
    ensures var k := (|Stale(lib, w, s)| + budget - 1) / budget;
            var t := Calls(lib, w, s, budget, k);
            && Stale(lib, w, t) == []
            && var u := Call(lib, w, t, budget); u.published == [] && u.state.rows == t.rows && u.state.status == t.status && u.state.files == t.files
  {
    hide Inv, Call, Stale;
    var n := |Stale(lib, w, s)|;
    var k := (n + budget - 1) / budget;
    EnoughCalls(n, budget);
    CallsPublish(lib, w, s, budget, k);
    var t := Calls(lib, w, s, budget, k);
    CallPublishes(lib, w, t, budget);
    IdleCall(lib, w, t, budget);
  }

  lemma EnoughCalls(n: nat, budget: nat)
    requires budget > 0
    ensures (n + budget - 1) / budget * budget >= n
  {
    var k := (n + budget - 1) / budget;
    assert n + budget - 1 == k * budget + (n + budget - 1) % budget;
  }

  lemma {:induction false} IdleCall(lib: Library, w: World, s: State, budget: nat)
    requires Inv(lib, s) && DataOnly(w.batches) && Stale(lib, w, s) == []
    ensures var u := Call(lib, w, s, budget).state; u.rows == s.rows && u.status == s.status && u.files == s.files
  {
    hide Inv, Sweep, DaysOf, Answering;
    DaysDescend(lib, w);
    RecoveryIsHarmless(lib, w, s);
    QuietSweep(lib, w, if w.batches != [] then Recovered(s, w.stalled) else s, DaysOf(lib, w), budget);
  }
}
