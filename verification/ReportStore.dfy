/** The report tables and files, changed in place by the daily run and the budgeted catch-up. */
module ReportStore {
  import Text
  import opened Events
  import opened Expenses
  import opened Manifests
  import opened Publication
  import opened DayInputs
  import opened Reports
  import opened ReportProof
  import opened CatchUp

  class Store {
    var rows: map<string, DayReport>
    var status: map<string, DayStatus>
    var files: Tree
    var runs: map<nat, Run>
    var workers: map<string, Worker>
    var next: nat

    constructor ()
      ensures View() == START
    {
      rows, status, files, runs, workers, next := map[], map[], map[], map[], map[], 0;
    }

    function View(): State
      reads this
    {
      State(rows, status, files, runs, workers, next)
    }

    method CloseStalled(stalled: set<nat>)
      modifies this`runs
      ensures View() == Recovered(old(View()), stalled)
    {
      runs := map r | r in runs :: if r in stalled && runs[r].status == Running then Run(runs[r].day, Failed(true)) else runs[r];
    }

    method StartRun(day: string, inputs: Inputs)
      modifies this`runs, this`workers, this`next
      ensures View() == Began(old(View()), day, inputs)
    {
      runs := runs[next := Run(day, Running)];
      workers := workers[day := Started(next, inputs)];
      next := next + 1;
    }

    method EndRun(day: string, outcome: RunStatus)
      requires day in workers
      modifies this`runs, this`workers
      ensures View() == Close(old(View()), day, outcome)
    {
      runs := runs[workers[day].run := Run(day, outcome)];
      workers := workers - {day};
    }

    method ReplaceDay(day: string, report: DayReport)
      requires day in workers
      modifies this`rows, this`status, this`workers
      ensures View() == Replaced(old(View()), day, report)
    {
      var w := workers[day];
      rows := rows[day := report];
      status := status[day := DayStatus(w.run, w.inputs, Pending, None)];
      workers := workers[day := Exporting(w.run, w.inputs, report, 0)];
    }

    /** Write the four exports in order. */
    method WriteExports(lib: Library, day: string)
      requires day in workers && workers[day].Exporting? && workers[day].written == 0
      modifies this`files, this`workers
      ensures View() == WroteAll(lib, old(View()), day)
    {
      ghost var s := View();
      for i := 0 to |FORMATS|
        invariant day in workers && workers[day] == s.workers[day].(written := i)
        invariant WroteAll(lib, View(), day) == WroteAll(lib, s, day)
      {
        var w := workers[day];
        files := files[Target(day, FORMATS[i]) := lib.render(FORMATS[i], day, w.report, w.run)];
        workers := workers[day := w.(written := i + 1)];
      }
    }

    /** Build the manifest from the files and publish them with it. */
    method PublishDay(day: string)
      requires Exported(View(), day)
      modifies this`status, this`runs, this`workers
      ensures View() == Concluded(old(View()), day)
    {
      var manifest := BuildExportManifest(files, Targets(day));
      TargetsByFormat(day);
      assert manifest.Built?;
      BuiltForTargets(files, day, manifest.manifest);
      if day in status && status[day].run == workers[day].run {
        status := status[day := status[day].(phase := Published, manifest := Some(manifest.manifest))];
      }
      EndRun(day, Success);
    }

    /** From the parsed rows to the assembled report, or the check that refuses it. */
    method ComputeDay(lib: Library, w: World, day: string) returns (r: Computed)
      requires day in w.landing && lib.ordinal(day).Some?
      ensures r.Computed? <==> Recompute(lib, w, day).Computed?
      ensures r.Computed? ==> r == Recompute(lib, w, day)
    {
      hide Assemble, EventsRead, AllPass, AllDayPaths, GateFails;
      var paths := VerifiedPaths(w.objects, w.batches, day);
      if paths.Error? {
        return Refused(BadArchive);
      }
      var parsed := lib.parse(w.landing[day]);
      if parsed.None? {
        return Refused(BadExpenseFile);
      }
      if parsed.value == [] {
        return Refused(NoRows);
      }
      var valid, rejected := ValidateExpenses(parsed.value, day, w.settings.vehicles);
      if GateFails(|parsed.value|, |rejected|, w.settings.threshold) {
        return Refused(QualityGate);
      }
      var events := EventsRead(lib, w.objects, paths.value);
      r := Assemble(lib.ordinal(day).value, paths.value == {}, events, valid, w.settings, ConflictsOf(w, day));
    }

    method Export(lib: Library, day: string, report: DayReport)
      requires day in workers && workers[day].Started?
      modifies this
      ensures View() == PublishedDay(lib, old(View()), day, report)
    {
      ReplaceDay(day, report);
      AllTargetsWritten(lib, View(), day);
      WriteExports(lib, day);
      PublishDay(day);
    }

    method IsCurrent(day: string, inputs: Inputs) returns (current: bool)
      ensures current <==> UpToDate(View(), day, inputs)
    {
      if day !in status || status[day].inputs != inputs || status[day].phase != Published {
        return false;
      }
      current := ManifestMatches(files, status[day].manifest);
    }

    /** Close recovered orphans that no longer matter. */
    method Supersede(day: string)
      modifies this`runs
      ensures View() == Superseding(old(View()), day)
    {
      runs := map r | r in runs :: if runs[r] == Run(day, Failed(true)) then Run(day, Superseded) else runs[r];
    }

    /** Inputs changed or nothing verified is published: a run with its own record. */
    method TrackedRun(lib: Library, w: World, day: string) returns (changed: bool)
      requires day in w.landing && lib.ordinal(day).Some?
      modifies this
      ensures changed <==> Recompute(lib, w, day).Computed?
      ensures var began := Began(old(View()), day, InputsOf(w, day));
              View() == if changed then PublishedDay(lib, began, day, Recompute(lib, w, day).report)
                        else Close(began, day, Failed(false))
    {
      hide Recompute, InputsOf, PublishedDay, Close;
      StartRun(day, InputsOf(w, day));
      var computed := ComputeDay(lib, w, day);
      if computed.Refused? {
        EndRun(day, Failed(false));
        return false;
      }
      Export(lib, day, computed.report);
      return true;
    }

    /** One day: wait, skip, publish, or raise. Closing stalled runs belongs to the transaction around the run: it is
        committed on every return and rolled back by every exception, which is what `Broken` stands for. */
    method RunDay(lib: Library, w: World, day: string) returns (outcome: Outcome)
      modifies this
      ensures outcome == Assess(lib, w, old(View()), day)
      ensures View() == AfterDay(lib, w, old(View()), day)
      ensures lib.ordinal(day).Some? && day !in old(workers) ==>
                (outcome == Deferred <==> w.latest.None? || DayOf(w.latest.value) <= lib.ordinal(day).value)
      ensures outcome in {Changed, Unchanged} ==>
                lib.ordinal(day).Some? && w.latest.Some? && lib.ordinal(day).value < DayOf(w.latest.value)
    {
      WaitsExactly(lib, w, View(), day);
      hide Recompute, InputsOf, UpToDate, PublishedDay, Close, Began, Superseding, RunsOf, Recovered;
      var at := lib.ordinal(day);
      if at.None? {
        return Broken;
      }
      if day in workers {
        return Deferred;
      }
      var stalled := RunsOf(View(), w.stalled, day);
      if !Closed(w, at.value) {
        CloseStalled(stalled);
        return Deferred;
      }
      if day !in w.landing || exists b :: b in w.batches && b.manifest.None? {
        return Broken;
      }
      var current := IsCurrent(day, InputsOf(w, day));
      if current {
        Supersede(day);
        CloseStalled(stalled);
        return Unchanged;
      }
      var changed := TrackedRun(lib, w, day);
      if !changed {
        return Broken;
      }
      CloseStalled(stalled);
      return Changed;
    }

    /** All landed and closed days, newest first, until the budget of changed days is reached. */
    method RunAvailable(lib: Library, w: World, budget: nat) returns (published: seq<string>, failed: seq<string>)
      requires budget > 0
      modifies this
      ensures var r := Call(lib, w, old(View()), budget); View() == r.state && published == r.published && failed == r.failed
    {
      hide *;
      if w.batches != [] {
        CloseStalled(w.stalled);
      }
      ghost var whole := Sweep(lib, w, View(), DaysOf(lib, w), budget);
      assert whole == Call(lib, w, old(View()), budget) by {
        CallSweeps(lib, w, old(View()), View(), budget);
      }
      var days := DaysOf(lib, w);
      published, failed := [], [];
      assert days[0..] == days;
      StartsWhole(whole);
      var i := 0;
      while i < |days|
        invariant 0 <= i <= |days| && |published| < budget
        invariant Continues(whole, published, failed, Sweep(lib, w, View(), days[i..], budget - |published|))
        decreases |days| - i
      {
        ghost var s, left := View(), budget - |published|;
        var outcome := RunDay(lib, w, days[i]);
        SweepUnfolds(lib, w, s, days, i, left);
        NextContinues(whole, published, failed, outcome, days[i], Sweep(lib, w, View(), days[i + 1..], if outcome == Changed then left - 1 else left));
        if outcome == Changed {
          published := published + [days[i]];
          if |published| >= budget {
            NoBudgetNoSweep(lib, w, View(), days[i + 1..]);
            EndsWhole(whole, published, failed, View());
            return;
          }
        } else if outcome == Broken {
          failed := failed + [days[i]];
        }
        i := i + 1;
      }
      NoDaysNoSweep(lib, w, View(), days[i..], budget - |published|);
      EndsWhole(whole, published, failed, View());
    }
  }

  lemma CallSweeps(lib: Library, w: World, s: State, t: State, budget: nat)
    requires t == if w.batches != [] then Recovered(s, w.stalled) else s
    ensures Call(lib, w, s, budget) == Sweep(lib, w, t, DaysOf(lib, w), budget)
  {
    hide Sweep, DaysOf, Recovered;
  }

  /** What is done so far, followed by the rest of the sweep, is the whole sweep. */
  ghost predicate Continues(whole: Swept, published: seq<string>, failed: seq<string>, rest: Swept) {
    whole.state == rest.state && whole.published == published + rest.published && whole.failed == failed + rest.failed
  }

  lemma StartsWhole(whole: Swept)
    ensures Continues(whole, [], [], whole)
  {}

  lemma EndsWhole(whole: Swept, published: seq<string>, failed: seq<string>, s: State)
    requires Continues(whole, published, failed, Swept(s, [], [], 0))
    ensures whole.state == s && whole.published == published && whole.failed == failed
  {}

  ghost function Extended(day: string, outcome: Outcome, rest: Swept): Swept {
    Swept(rest.state,
          if outcome == Changed then [day] + rest.published else rest.published,
          if outcome == Broken then [day] + rest.failed else rest.failed,
          rest.visited + 1)
  }

  lemma SweepUnfolds(lib: Library, w: World, s: State, days: seq<string>, i: nat, left: nat)
    requires i < |days| && left > 0
    ensures var outcome := Assess(lib, w, s, days[i]);
            Sweep(lib, w, s, days[i..], left)
            == Extended(days[i], outcome, Sweep(lib, w, AfterDay(lib, w, s, days[i]), days[i + 1..], if outcome == Changed then left - 1 else left))
  {
    hide Assess, AfterDay;
    assert days[i..][0] == days[i] && days[i..][1..] == days[i + 1..];
  }

  lemma NextContinues(whole: Swept, published: seq<string>, failed: seq<string>, outcome: Outcome, day: string, rest: Swept)
    requires Continues(whole, published, failed, Extended(day, outcome, rest))
    ensures Continues(whole, if outcome == Changed then published + [day] else published,
                      if outcome == Broken then failed + [day] else failed, rest)
  {}

  lemma NoBudgetNoSweep(lib: Library, w: World, s: State, days: seq<string>)
    ensures Sweep(lib, w, s, days, 0) == Swept(s, [], [], 0)
  {}

  lemma NoDaysNoSweep(lib: Library, w: World, s: State, days: seq<string>, budget: nat)
    requires days == []
    ensures Sweep(lib, w, s, days, budget) == Swept(s, [], [], 0)
  {}

  /** Runs from an empty store keep the promise to readers of published dates. */
  lemma {:induction false} CallsStaySound(lib: Library, w: World, budget: nat, k: nat, day: string)
    requires DataOnly(w.batches)
    ensures var s := Calls(lib, w, START, budget, k);
            day in s.status && s.status[day].phase == Published ==>
              day in s.rows && s.status[day].manifest.Some? && Matches(s.files, s.status[day].manifest.value)
  {
    hide Matches, Compute;
    CallsPublish(lib, w, START, budget, k);
    var s := Calls(lib, w, START, budget, k);
    if day in s.status && s.status[day].phase == Published {
      assert DaySound(lib, s, day);
      DayMatchesIffUnchanged(s.files, s.files, day);
    }
  }
}
