/**
 Daily publication as a state machine: run records, the transactional replacement of a
 day, four file writes and the publishing transaction are separate steps of a worker that
 holds the day's lock; a worker may fail or crash between any two of them.
 */
module Reports {
  import opened Events
  import opened Manifests
  import opened Publication
  import opened DayInputs

  datatype RunStatus = Running | Failed(orphan: bool) | Superseded | Success

  datatype Run = Run(day: string, status: RunStatus)

  datatype ExportStatus = Pending | Published

  /** A row of `daily_report_status`. */
  datatype DayStatus = DayStatus(run: nat, inputs: Inputs, phase: ExportStatus, manifest: Option<ExportManifest>)

  /** A process that holds the day's lock: before the day is replaced, and while it exports. */
  datatype Worker =
    | Started(run: nat, inputs: Inputs)
    | Exporting(run: nat, inputs: Inputs, report: DayReport, written: nat)

  /** Tables, files below the report directory, and live workers; `next` stands for the unique run ids. */
  datatype State = State(
    rows: map<string, DayReport>, status: map<string, DayStatus>, files: Tree,
    runs: map<nat, Run>, workers: map<string, Worker>, next: nat)

  const START := State(map[], map[], map[], map[], map[], 0)

  /* ---- file names ---- */

  function Target(day: string, format: string): Rel {
    Rel(false, ["profitability_" + day + "." + format])
  }

  function Targets(day: string): seq<Rel> {
    [Target(day, "json"), Target(day, "csv"), Target(day, "html"), Target(day, "parquet")]
  }

  lemma TargetIsSafe(day: string, format: string)
    requires format in FORMATS
    ensures !Unsafe(Target(day, format)) && SuffixOf(Target(day, format)) == format
  {
    var stem := "profitability_" + day;
    var name := stem + "." + format;
    SuffixOfDotted(stem, format);
    assert name[|stem| + 1..] == format;
    assert name[0] == 'p';
  }

  /** No two days or formats share a file. */
  lemma TargetsDiffer(a: string, f: string, b: string, g: string)
    requires f in FORMATS && g in FORMATS && Target(a, f) == Target(b, g)
    ensures a == b && f == g
  {
    TargetIsSafe(a, f);
    TargetIsSafe(b, g);
    var one, other := "profitability_" + a + "." + f, "profitability_" + b + "." + g;
    assert Target(a, f).parts[0] == one && Target(b, g).parts[0] == other;
    assert one[14..14 + |a|] == a && other[14..14 + |b|] == b;
  }

  lemma TargetsByFormat(day: string)
    ensures forall f :: f in FORMATS ==> f in ByFormat(Targets(day)) && ByFormat(Targets(day))[f] == Target(day, f)
  {
    hide Target, SuffixOf, ByFormat;
    var json, csv, html, parquet := Target(day, "json"), Target(day, "csv"), Target(day, "html"), Target(day, "parquet");
    assert [] + [json] == [json] && [json] + [csv] == [json, csv] && [json, csv] + [html] == [json, csv, html];
    NextByFormat([], map[], day, "json");
    NextByFormat([json], map["json" := json], day, "csv");
    NextByFormat([json, csv], map["json" := json, "csv" := csv], day, "html");
    NextByFormat([json, csv, html], map["json" := json, "csv" := csv, "html" := html], day, "parquet");
    assert [json, csv, html] + [parquet] == Targets(day);
  }

  lemma NextByFormat(paths: seq<Rel>, known: map<string, Rel>, day: string, format: string)
    requires format in FORMATS && (if paths == [] then known == map[] else ByFormat(paths) == known)
    ensures ByFormat(paths + [Target(day, format)]) == known[format := Target(day, format)]
  {
    TargetIsSafe(day, format);
    hide Target, SuffixOf;
    assert (paths + [Target(day, format)])[..|paths|] == paths;
  }

  predicate HasTargets(files: Tree, day: string) {
    forall f :: f in FORMATS ==> Target(day, f) in files
  }

  /** The manifest that building over the day's four files yields. */
  function ManifestOf(files: Tree, day: string): ExportManifest
    requires HasTargets(files, day)
  {
    ExportManifest(1, map f | f in FORMATS :: Entry(Target(day, f), Some(DigestOf(files[Target(day, f)]))))
  }

  lemma BuiltForTargets(files: Tree, day: string, manifest: ExportManifest)
    requires Describes(files, Targets(day), manifest)
    ensures HasTargets(files, day) && manifest == ManifestOf(files, day)
  {
    TargetsByFormat(day);
  }

  lemma ManifestDescribes(files: Tree, day: string)
    requires HasTargets(files, day)
    ensures Describes(files, Targets(day), ManifestOf(files, day))
  {
    TargetsByFormat(day);
  }

  predicate SameFile(a: Tree, b: Tree, path: Rel) {
    (path in a <==> path in b) && (path in a ==> a[path] == b[path])
  }

  predicate SameTargets(a: Tree, b: Tree, day: string) {
    forall f :: f in FORMATS ==> SameFile(a, b, Target(day, f))
  }

  /** The stored manifest of a day matches exactly while its four files keep their bytes. */
  lemma {:induction false} DayMatchesIffUnchanged(before: Tree, after: Tree, day: string)
    requires HasTargets(before, day)
    ensures Matches(after, ManifestOf(before, day)) <==> SameTargets(before, after, day)
  {
    hide SuffixOf, DigestOf, Matches, Describes;
    ManifestDescribes(before, day);
    TargetsByFormat(day);
    forall p | p in Targets(day) ensures !Unsafe(p) && p.parts != [] {
      assert exists f :: f in FORMATS && p == Target(day, f) by {
        assert "json" in FORMATS && "csv" in FORMATS && "html" in FORMATS && "parquet" in FORMATS;
      }
      var f :| f in FORMATS && p == Target(day, f);
      TargetIsSafe(day, f);
    }
    MatchesIffUnchanged(before, after, Targets(day), ManifestOf(before, day));
  }

  /* ---- the skip decision ---- */

  /** Same inputs, published, and the published files are still there. */
  predicate UpToDate(s: State, day: string, inputs: Inputs) {
    && day in s.status && s.status[day].inputs == inputs && s.status[day].phase == Published
    && s.status[day].manifest.Some? && Matches(s.files, s.status[day].manifest.value)
  }

  /* ---- effects of the steps ---- */

  /** Close runs that stopped without saying so: any running record may be old enough. */
  function Recovered(s: State, stalled: set<nat>): State {
    s.(runs := map r | r in s.runs ::
         if r in stalled && s.runs[r].status == Running then Run(s.runs[r].day, Failed(true)) else s.runs[r])
  }

  function Superseding(s: State, day: string): State {
    s.(runs := map r | r in s.runs ::
         if s.runs[r] == Run(day, Failed(true)) then Run(day, Superseded) else s.runs[r])
  }

  function Began(s: State, day: string, inputs: Inputs): State {
    s.(runs := s.runs[s.next := Run(day, Running)], workers := s.workers[day := Started(s.next, inputs)], next := s.next + 1)
  }

  /** One transaction: new rows, a pending status of this run, no manifest. */
  function Replaced(s: State, day: string, report: DayReport): State
    requires day in s.workers
  {
    var w := s.workers[day];
    s.(rows := s.rows[day := report],
       status := s.status[day := DayStatus(w.run, w.inputs, Pending, None)],
       workers := s.workers[day := Exporting(w.run, w.inputs, report, 0)])
  }

  predicate Writing(s: State, day: string) {
    day in s.workers && s.workers[day].Exporting? && s.workers[day].written < |FORMATS|
  }

  /** The next file is written aside and moved into place. */
  function Wrote(lib: Library, s: State, day: string): State
    requires Writing(s, day)
  {
    var w := s.workers[day];
    var format := FORMATS[w.written];
    s.(files := s.files[Target(day, format) := lib.render(format, day, w.report, w.run)],
       workers := s.workers[day := w.(written := w.written + 1)])
  }

  predicate Exported(s: State, day: string) {
    day in s.workers && s.workers[day].Exporting? && s.workers[day].written == |FORMATS| && HasTargets(s.files, day)
  }

  function Close(s: State, day: string, status: RunStatus): State
    requires day in s.workers
  {
    s.(runs := s.runs[s.workers[day].run := Run(day, status)], workers := s.workers - {day})
  }

  /** One transaction: the status row of this date and run, and the run record. */
  function Concluded(s: State, day: string): State
    requires Exported(s, day)
  {
    var run := s.workers[day].run;
    var done := Close(s, day, Success);
    if day in s.status && s.status[day].run == run then
      done.(status := s.status[day := s.status[day].(phase := Published, manifest := Some(ManifestOf(s.files, day)))])
    else done
  }

  datatype Step =
    | Recover(stalled: set<nat>)
    | Skip(day: string, inputs: Inputs)
    | Begin(day: string, inputs: Inputs)
    | Replace(day: string)
    | WriteNext(day: string)
    | Publish(day: string)
    | Fail(day: string)
    | Crash(day: string)

  ghost predicate Enabled(lib: Library, s: State, step: Step) {
    match step
    case Recover(_) => true
    case Skip(day, inputs) => day !in s.workers && UpToDate(s, day, inputs)
    case Begin(day, inputs) => day !in s.workers && !UpToDate(s, day, inputs)
    case Replace(day) => day in s.workers && s.workers[day].Started? && Compute(lib, day, s.workers[day].inputs).Computed?
    case WriteNext(day) => Writing(s, day)
    case Publish(day) => Exported(s, day)
    case Fail(day) => day in s.workers
    case Crash(day) => day in s.workers
  }

  ghost function Take(lib: Library, s: State, step: Step): State
    requires Enabled(lib, s, step)
  {
    match step
    case Recover(stalled) => Recovered(s, stalled)
    case Skip(day, _) => Superseding(s, day)
    case Begin(day, inputs) => Began(s, day, inputs)
    case Replace(day) => Replaced(s, day, Compute(lib, day, s.workers[day].inputs).report)
    case WriteNext(day) => Wrote(lib, s, day)
    case Publish(day) => Concluded(s, day)
    case Fail(day) => Close(s, day, Failed(false))
    case Crash(day) => s.(workers := s.workers - {day})
  }

  ghost predicate CanRun(lib: Library, s: State, steps: seq<Step>)
    decreases |steps|
  {
    steps == [] || (Enabled(lib, s, steps[0]) && CanRun(lib, Take(lib, s, steps[0]), steps[1..]))
  }

  ghost function RunSteps(lib: Library, s: State, steps: seq<Step>): State
    requires CanRun(lib, s, steps)
    decreases |steps|
  {
    if steps == [] then s else RunSteps(lib, Take(lib, s, steps[0]), steps[1..])
  }
}
