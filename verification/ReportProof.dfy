/** What every step of the publication keeps, and what that says about published days. */
module ReportProof {
  import opened Events
  import opened Manifests
  import opened Publication
  import opened DayInputs
  import opened Reports

  /** The file of one format holds this run's rendering of this report. */
  predicate FileIs(lib: Library, files: Tree, day: string, f: string, report: DayReport, run: nat) {
    Target(day, f) in files && files[Target(day, f)] == lib.render(f, day, report, run)
  }

  predicate FilesAre(lib: Library, files: Tree, day: string, report: DayReport, run: nat) {
    forall f :: f in FORMATS ==> FileIs(lib, files, day, f, report, run)
  }

  /** Rows, status, files and run record of a day belong together. */
  ghost predicate DaySound(lib: Library, s: State, day: string)
    requires day in s.status
  {
    var st := s.status[day];
    && day in s.rows && Compute(lib, day, st.inputs) == Computed(s.rows[day])
    && st.run in s.runs && s.runs[st.run].day == day
    && (st.phase == Published <==> s.runs[st.run].status == Success)
    && match st.phase
       case Pending => st.manifest == None
       case Published => FilesAre(lib, s.files, day, s.rows[day], st.run) && st.manifest == Some(ManifestOf(s.files, day))
  }

  predicate WorkerSound(lib: Library, s: State, day: string)
    requires day in s.workers
  {
    var w := s.workers[day];
    && w.run in s.runs && s.runs[w.run].day == day
    && match w
       case Started(run, _) => s.runs[run].status != Success && (day in s.status ==> s.status[day].run != run)
       case Exporting(run, inputs, report, written) =>
         && day in s.status && s.status[day] == DayStatus(run, inputs, Pending, None) && day in s.rows && s.rows[day] == report
         && written <= |FORMATS|
         && forall i :: 0 <= i < written ==> FileIs(lib, s.files, day, FORMATS[i], report, run)
  }

  ghost predicate Inv(lib: Library, s: State) {
    && s.rows.Keys == s.status.Keys
    && (forall r: nat :: r in s.runs ==> r < s.next)
    && (forall day :: day in s.status ==> DaySound(lib, s, day))
    && (forall day :: day in s.workers ==> WorkerSound(lib, s, day))
  }

  /* ---- steps of one day leave the others alone ---- */

  predicate SameDay(a: State, b: State, day: string) {
    && (day in a.rows <==> day in b.rows) && (day in a.rows ==> a.rows[day] == b.rows[day])
    && (day in a.status <==> day in b.status) && (day in a.status ==> a.status[day] == b.status[day])
    && SameTargets(a.files, b.files, day)
  }

  predicate SameWorker(a: State, b: State, day: string) {
    (day in a.workers <==> day in b.workers) && (day in a.workers ==> a.workers[day] == b.workers[day])
  }

  /** Run records only change from one day's own runs, and a success is final. */
  predicate RunsCarry(a: State, b: State, day: string) {
    forall r :: r in a.runs && a.runs[r].day == day ==>
      r in b.runs && b.runs[r].day == day && (a.runs[r].status == Success <==> b.runs[r].status == Success)
  }

  lemma OtherFileStays(files: Tree, day: string, f: string, other: string, content: Bytes)
    requires f in FORMATS && day != other
    ensures SameTargets(files, files[Target(day, f) := content], other)
  {
    hide Target;
    forall g | g in FORMATS ensures Target(other, g) != Target(day, f) {
      if Target(other, g) == Target(day, f) {
        TargetsDiffer(other, g, day, f);
      }
    }
  }

  predicate Concerns(step: Step, day: string) {
    !step.Recover? && step.day == day
  }

  /** A step of another day, or a recovery, changes nothing of this day but the status of unfinished runs. */
  lemma {:induction false} OtherDaysStay(lib: Library, s: State, step: Step, day: string)
    requires Inv(lib, s) && Enabled(lib, s, step) && !Concerns(step, day)
    ensures var t := Take(lib, s, step); SameDay(s, t, day) && SameWorker(s, t, day) && RunsCarry(s, t, day)
  {
    hide *;
    if step.WriteNext? {
      assert Writing(s, step.day) && Take(lib, s, step) == Wrote(lib, s, step.day) && step.day != day by { TakeWrites(lib, s, step, day); }
      OtherDaysWrite(lib, s, step.day, day);
    } else {
      OtherRunsCarry(lib, s, step, day);
      OtherTablesStay(lib, s, step, day);
    }
  }

  lemma TakeWrites(lib: Library, s: State, step: Step, day: string)
    requires Enabled(lib, s, step) && step.WriteNext? && !Concerns(step, day)
    ensures Writing(s, step.day) && Take(lib, s, step) == Wrote(lib, s, step.day) && step.day != day
  {
    hide Wrote, Writing;
  }

  lemma OtherTablesStay(lib: Library, s: State, step: Step, day: string)
    requires Enabled(lib, s, step) && !Concerns(step, day) && !step.WriteNext?
    ensures var t := Take(lib, s, step); t.files == s.files && SameDay(s, t, day) && SameWorker(s, t, day)
  {
    hide Target, Compute, HasTargets, ManifestOf, UpToDate, SameTargets;
    SameTargetsRefl(s.files, day);
  }

  lemma SameTargetsRefl(files: Tree, day: string)
    ensures SameTargets(files, files, day)
  {}

  lemma OtherRunsCarry(lib: Library, s: State, step: Step, day: string)
    requires Inv(lib, s) && Enabled(lib, s, step) && !Concerns(step, day)
    ensures RunsCarry(s, Take(lib, s, step), day)
  {
    hide Target, FilesAre, DaySound, Compute, HasTargets, ManifestOf, UpToDate, FileIs;
    if !step.Recover? && step.day in s.workers {
      assert WorkerSound(lib, s, step.day);
    }
  }

  lemma OtherDaysWrite(lib: Library, s: State, writing: string, day: string)
    requires Writing(s, writing) && writing != day
    ensures var t := Wrote(lib, s, writing); SameDay(s, t, day) && SameWorker(s, t, day) && RunsCarry(s, t, day)
  {
    hide Target, SameTargets;
    var w := s.workers[writing];
    var f := FORMATS[w.written];
    OtherFileStays(s.files, writing, f, day, lib.render(f, writing, w.report, w.run));
  }

  lemma {:induction false} SoundDayCarries(lib: Library, s: State, t: State, day: string)
    requires day in s.status && DaySound(lib, s, day) && SameDay(s, t, day) && RunsCarry(s, t, day)
    ensures day in t.status && DaySound(lib, t, day)
  {
    hide Target, Compute;
    if s.status[day].phase == Published {
      assert ManifestOf(s.files, day) == ManifestOf(t.files, day);
    }
  }

  lemma {:induction false} SoundWorkerCarries(lib: Library, s: State, t: State, day: string)
    requires day in s.workers && WorkerSound(lib, s, day) && SameDay(s, t, day) && SameWorker(s, t, day) && RunsCarry(s, t, day)
    ensures WorkerSound(lib, t, day)
  {
    hide Target;
    var w := s.workers[day];
    if w.Exporting? {
      forall i | 0 <= i < w.written ensures FileIs(lib, t.files, day, FORMATS[i], w.report, w.run) {
        assert FORMATS[i] in FORMATS;
      }
    }
  }

  /* ---- the step's own day ---- */

  lemma {:induction false} OwnDayBegins(lib: Library, s: State, step: Step)
    requires Inv(lib, s) && Enabled(lib, s, step) && (step.Skip? || step.Begin? || step.Replace?)
    ensures var t := Take(lib, s, step);
            && (step.day in t.status ==> DaySound(lib, t, step.day))
            && (step.day in t.workers ==> WorkerSound(lib, t, step.day))
  {
    hide Target, FilesAre, HasTargets, ManifestOf, UpToDate, FileIs, Compute;
    var day := step.day;
    if day in s.workers {
      assert WorkerSound(lib, s, day);
    }
    if day in s.status {
      assert DaySound(lib, s, day);
    }
  }

  lemma {:induction false} OwnDayWrites(lib: Library, s: State, day: string)
    requires Inv(lib, s) && Writing(s, day)
    ensures var t := Wrote(lib, s, day); day in t.status && DaySound(lib, t, day) && WorkerSound(lib, t, day)
  {
    hide Target, HasTargets, ManifestOf, Compute;
    assert WorkerSound(lib, s, day) && DaySound(lib, s, day);
    var w, t := s.workers[day], Wrote(lib, s, day);
    forall i | 0 <= i < w.written + 1 ensures FileIs(lib, t.files, day, FORMATS[i], w.report, w.run) {
      if i < w.written && Target(day, FORMATS[i]) == Target(day, FORMATS[w.written]) {
        TargetsDiffer(day, FORMATS[i], day, FORMATS[w.written]);
      }
    }
  }

  lemma {:induction false} OwnDayConcludes(lib: Library, s: State, day: string)
    requires Inv(lib, s) && Exported(s, day)
    ensures var t := Concluded(s, day);
            day in t.status && DaySound(lib, t, day) && day !in t.workers && t.status[day].phase == Published
  {
    hide Target, ManifestOf, Compute;
    assert WorkerSound(lib, s, day) && DaySound(lib, s, day);
    var w := s.workers[day];
    forall f | f in FORMATS ensures FileIs(lib, s.files, day, f, w.report, w.run) {
      var i :| 0 <= i < |FORMATS| && FORMATS[i] == f;
    }
  }

  lemma {:induction false} OwnDayStops(lib: Library, s: State, step: Step)
    requires Inv(lib, s) && Enabled(lib, s, step) && (step.Fail? || step.Crash?)
    ensures var t := Take(lib, s, step);
            (step.day in t.status ==> DaySound(lib, t, step.day)) && step.day !in t.workers
  {
    hide Target, FilesAre, HasTargets, ManifestOf, FileIs, Compute;
    assert WorkerSound(lib, s, step.day);
    if step.day in s.status {
      assert DaySound(lib, s, step.day);
    }
  }

  lemma {:induction false} OwnDayIsSound(lib: Library, s: State, step: Step)
    requires Inv(lib, s) && Enabled(lib, s, step) && !step.Recover?
    ensures var t := Take(lib, s, step);
            && (step.day in t.status ==> DaySound(lib, t, step.day))
            && (step.day in t.workers ==> WorkerSound(lib, t, step.day))
  {
    hide Inv, DaySound, WorkerSound, Compute;
    match step {
      case Skip(_, _) => OwnDayBegins(lib, s, step);
      case Begin(_, _) => OwnDayBegins(lib, s, step);
      case Replace(_) => OwnDayBegins(lib, s, step);
      case WriteNext(day) => OwnDayWrites(lib, s, day);
      case Publish(day) => OwnDayConcludes(lib, s, day);
      case Fail(_) => OwnDayStops(lib, s, step);
      case Crash(_) => OwnDayStops(lib, s, step);
    }
  }

  lemma {:induction false} BookkeepingStays(lib: Library, s: State, step: Step)
    requires Inv(lib, s) && Enabled(lib, s, step)
    ensures var t := Take(lib, s, step); t.rows.Keys == t.status.Keys && forall r: nat :: r in t.runs ==> r < t.next
  {
    hide Target, FilesAre, HasTargets, ManifestOf, UpToDate, FileIs, Compute;
    if !step.Recover? && step.day in s.workers {
      assert WorkerSound(lib, s, step.day);
    }
  }

  /** Every step keeps the invariant. */
  lemma {:induction false} StepKeepsInv(lib: Library, s: State, step: Step)
    requires Inv(lib, s) && Enabled(lib, s, step)
    ensures Inv(lib, Take(lib, s, step))
  {
    var t := Take(lib, s, step);
    BookkeepingStays(lib, s, step);
    if !step.Recover? {
      OwnDayIsSound(lib, s, step);
    }
    hide Take, Enabled, DaySound, WorkerSound, SameDay, SameWorker, RunsCarry;
    forall day | day in t.status ensures DaySound(lib, t, day) {
      if !Concerns(step, day) {
        OtherDaysStay(lib, s, step, day);
        SameStatusKey(s, t, day);
        SoundDayCarries(lib, s, t, day);
      }
    }
    forall day | day in t.workers ensures WorkerSound(lib, t, day) {
      if !Concerns(step, day) {
        OtherDaysStay(lib, s, step, day);
        SameWorkerKey(s, t, day);
        SoundWorkerCarries(lib, s, t, day);
      }
    }
  }

  lemma SameStatusKey(s: State, t: State, day: string)
    requires SameDay(s, t, day)
    ensures day in s.status <==> day in t.status
  {}

  lemma SameWorkerKey(s: State, t: State, day: string)
    requires SameWorker(s, t, day)
    ensures day in s.workers <==> day in t.workers
  {}

  lemma {:induction false} RunKeepsInv(lib: Library, s: State, steps: seq<Step>)
    requires Inv(lib, s) && CanRun(lib, s, steps)
    ensures Inv(lib, RunSteps(lib, s, steps))
    decreases |steps|
  {
    hide Inv, Take, Enabled;
    if steps != [] {
      StepKeepsInv(lib, s, steps[0]);
      RunKeepsInv(lib, Take(lib, s, steps[0]), steps[1..]);
    }
  }

  ghost predicate Reachable(lib: Library, s: State) {
    exists steps :: CanRun(lib, START, steps) && RunSteps(lib, START, steps) == s
  }

  lemma {:induction false} ReachableIsSound(lib: Library, s: State)
    requires Reachable(lib, s)
    ensures Inv(lib, s)
  {
    var steps :| CanRun(lib, START, steps) && RunSteps(lib, START, steps) == s;
    RunKeepsInv(lib, START, steps);
  }

  /** At every point of every run: a published date has its manifest, its four files match it and were rendered
      from the stored rows by the same successful run; any other date with rows is pending without a manifest. */
  lemma {:induction false} PublishedMeansConsistent(lib: Library, s: State, day: string)
    requires Reachable(lib, s) && day in s.status
    ensures day in s.rows
    ensures var st := s.status[day];
            if st.phase == Published then
              && st.manifest.Some? && Matches(s.files, st.manifest.value)
              && FilesAre(lib, s.files, day, s.rows[day], st.run)
              && st.run in s.runs && s.runs[st.run] == Run(day, Success)
            else st.manifest == None
  {
    ReachableIsSound(lib, s);
    assert DaySound(lib, s, day);
    if s.status[day].phase == Published {
      DayMatchesIffUnchanged(s.files, s.files, day);
    }
  }

  /* ---- failed gates ---- */

  /** This day's worker, if any, was started on inputs that the computation refuses. */
  ghost predicate Doomed(lib: Library, s: State, day: string) {
    day in s.workers ==> s.workers[day].Started? && Compute(lib, day, s.workers[day].inputs).Refused?
  }

  lemma {:induction false} DoomedStepChangesNothing(lib: Library, s: State, step: Step, day: string)
    requires Inv(lib, s) && Enabled(lib, s, step) && Doomed(lib, s, day) && !(step.Begin? && step.day == day)
    ensures var t := Take(lib, s, step); SameDay(s, t, day) && Doomed(lib, t, day)
  {
    if !Concerns(step, day) {
      hide Inv, Take, Enabled, SameDay, Compute;
      OtherDaysStay(lib, s, step, day);
    } else {
      hide Target, Compute, Inv, UpToDate;
    }
  }

  /** From the start of a run whose inputs fail the quality gate, or any other check, until the next run of that day:
      the rows, the status and the files of the day stay as they were last published, whatever else happens. */
  lemma {:induction false} RefusedRunChangesNothing(lib: Library, s: State, steps: seq<Step>, day: string)
    requires Inv(lib, s) && CanRun(lib, s, steps) && Doomed(lib, s, day)
    requires forall i :: 0 <= i < |steps| ==> !(steps[i].Begin? && steps[i].day == day)
    ensures SameDay(s, RunSteps(lib, s, steps), day)
    decreases |steps|
  {
    hide Inv, Take, Enabled, SameDay, Doomed;
    if steps == [] {
      SameDayRefl(s, day);
    } else {
      var t := Take(lib, s, steps[0]);
      DoomedStepChangesNothing(lib, s, steps[0], day);
      StepKeepsInv(lib, s, steps[0]);
      RefusedRunChangesNothing(lib, t, steps[1..], day);
      SameDayTrans(s, t, RunSteps(lib, t, steps[1..]), day);
    }
  }

  lemma SameDayRefl(s: State, day: string)
    ensures SameDay(s, s, day)
  {}

  lemma SameDayTrans(a: State, b: State, c: State, day: string)
    requires SameDay(a, b, day) && SameDay(b, c, day)
    ensures SameDay(a, c, day)
  {
    hide Target;
  }

  /* ---- skipping ---- */

  /** When a run is skipped as unchanged, the stored rows are what recomputing from the current files,
      conflicts and settings would give. */
  lemma {:induction false} SkipIsSound(lib: Library, s: State, w: World, day: string)
    requires Reachable(lib, s) && day in w.landing && UpToDate(s, day, InputsOf(w, day))
    requires NoBareFile(w.batches, day) && AllPass(w.objects, w.batches, day)
    ensures day in s.rows && Recompute(lib, w, day) == Computed(s.rows[day])
  {
    hide Recompute, Compute, AllPass, InputsOf;
    ReachableIsSound(lib, s);
    assert DaySound(lib, s, day);
    FingerprintCoversComputation(lib, w, day);
  }
}
