/** What a daily run reads, what its fingerprint covers, and what it computes from that. */
module DayInputs {
  import Text
  import Aggregate
  import opened Coverage
  import opened Events
  import opened Expenses
  import opened Manifests
  import opened Reconcile

  type Bytes = string

  type Positive = r: real | r > 0.0 witness 1.0

  datatype Settings = Settings(version: int, vehicles: set<string>, interval: Positive, daySeconds: Positive, threshold: real)

  /** A row of the conflict ledger with the payload fields that reconciliation uses. */
  datatype ConflictRow = ConflictRow(eventId: string, reason: string, trip: Option<string>, vehicle: Option<string>)

  /** Everything hashed into the input fingerprint; equal fingerprints stand for equal inputs. */
  datatype Inputs = Inputs(expenses: Bytes, files: set<(Path, Item)>, settings: Settings, conflicts: seq<ConflictRow>)

  /** What a run finds outside its own tables. `latest` is the newest event time of any committed batch. */
  datatype World = World(
    batches: seq<BatchRow>, latest: Option<int>, objects: Objects, landing: map<string, Bytes>,
    conflicts: map<string, seq<ConflictRow>>, settings: Settings, stalled: set<nat>)

  datatype DayReport = DayReport(rows: seq<ReportRow>, zones: map<string, (nat, nat)>, coverage: map<string, Verdict>)

  /** Calendar, parsing, decoding and rendering: fixed functions of their arguments. */
  datatype Library = Library(
    iso: int -> string,
    ordinal: string -> Option<int>,
    parse: Bytes -> Option<seq<ExpenseRow>>,
    decode: string -> set<Event>,
    render: (string, string, DayReport, nat) -> Bytes)

  datatype Refusal = BadDate | BadExpenseFile | NoRows | QualityGate | BadArchive | ArchiveError(error: Aggregate.AggregateError)

  datatype Computed = Computed(report: DayReport) | Refused(why: Refusal)

  /* ---- the fingerprint ---- */

  /** `f["path"].startswith(f"dt={report_date}/")` */
  predicate Fingerprinted(rel: Rel, day: string) {
    !rel.absolute && |rel.parts| >= 2 && OfDay(rel, day)
  }

  function FilesOf(batches: seq<BatchRow>, day: string): set<(Path, Item)> {
    set b, rel | b in batches && b.manifest.Some? && rel in b.manifest.value.files && Fingerprinted(rel, day)
      :: (Path(b.id, rel), b.manifest.value.files[rel])
  }

  function ConflictsOf(w: World, day: string): seq<ConflictRow> {
    if day in w.conflicts then w.conflicts[day] else []
  }

  function InputsOf(w: World, day: string): Inputs
    requires day in w.landing
  {
    Inputs(w.landing[day], FilesOf(w.batches, day), w.settings, ConflictsOf(w, day))
  }

  /* ---- conflicts ---- */

  function BlockedEventIds(conflicts: seq<ConflictRow>): set<string> {
    set c | c in conflicts && c.eventId != "" && !(PRIOR <= c.eventId) :: c.eventId
  }

  function BlockedTripIds(conflicts: seq<ConflictRow>): set<string> {
    set c | c in conflicts && c.trip.Some? && c.trip.value != "" :: c.trip.value
  }

  function ConflictedBy(conflicts: seq<ConflictRow>): set<string> {
    set c | c in conflicts && c.vehicle.Some? :: c.vehicle.value
  }

  /** Rows of vehicles named by the conflict ledger lose their profit. */
  function Overridden(row: ReportRow, vehicles: set<string>): ReportRow {
    if row.vehicle in vehicles then row.(status := ConflictingEvents, profit := None, unprofitable := None) else row
  }

  function OverrideAll(rows: seq<ReportRow>, vehicles: set<string>): seq<ReportRow> {
    seq(|rows|, i requires 0 <= i < |rows| => Overridden(rows[i], vehicles))
  }

  function VehiclesIn(rows: seq<ReportRow>): set<string> {
    set r | r in rows :: r.vehicle
  }

  function OverrideCoverage(coverage: map<string, Verdict>, vehicles: set<string>): map<string, Verdict> {
    map v | v in coverage :: if v in vehicles then coverage[v].(conflict := true) else coverage[v]
  }

  /* ---- the computation ---- */

  /** The first simulated day, counted from the epoch: 1 March 2026. Coverage counts seconds from its start. */
  const SIM_START_DAY: int := 20513

  function SecondsOf(ts: int): real {
    (ts - SIM_START_DAY * DAY) as real / 1_000_000.0
  }

  function DayStart(day: int): real {
    (day - SIM_START_DAY) as real * 86400.0
  }

  /** The distinct (time, zone) pairs of every vehicle among the clean events. */
  function SummaryOf(clean: set<Event>): Summary {
    var vehicles := set e | e in clean :: e.vehicle;
    map v | v in vehicles :: set e | e in clean && e.vehicle == v :: Observation(SecondsOf(e.ts), e.zone)
  }

  /** Verdicts before the ledger's override; without files every known vehicle is an explicit unknown. */
  function CoverageOf(settings: Settings, day: int, noPaths: bool, clean: set<Event>, conflicted: set<string>): map<string, Verdict> {
    if noPaths then map v | v in settings.vehicles :: Verdict(false, 0, false)
    else
      StepIsPositive(settings.interval, settings.daySeconds);
      Verdicts(SummaryOf(clean), settings.vehicles, conflicted,
               DayStart(day), DayStart(day) + 86400.0, StepOf(settings.interval, settings.daySeconds))
  }

  function Assemble(
    day: int, noPaths: bool, events: set<Event>, costs: seq<Cost>, settings: Settings, conflicts: seq<ConflictRow>): Computed
  {
    var ids, trips := BlockedEventIds(conflicts), BlockedTripIds(conflicts);
    var clean := Aggregate.Clean(events, Aggregate.BadIds(events, ids));
    var coverage := CoverageOf(settings, day, noPaths, clean, Aggregate.ConflictedVehicles(events, ids, trips));
    var outcome :=
      if noPaths then Aggregate.NoPathsReport(Text.Sort(settings.vehicles), costs)
      else Aggregate.AggregateEvents(events, costs, day, settings.vehicles, ids, trips, map v | v in coverage :: coverage[v].complete);
    match outcome
    case Failed(error) => Refused(ArchiveError(error))
    case Report(rows, zones) =>
      var named := ConflictedBy(conflicts);
      Computed(DayReport(OverrideAll(rows, named), zones, OverrideCoverage(coverage, named * VehiclesIn(rows))))
  }

  predicate GateFails(total: nat, rejected: nat, threshold: real)
    requires total > 0
  {
    rejected as real / total as real > threshold
  }

  /** The gate and everything after it, for parsed expense rows. */
  ghost function ComputeRows(
    day: string, at: int, rows: seq<ExpenseRow>, noPaths: bool, events: set<Event>,
    settings: Settings, conflicts: seq<ConflictRow>): Computed
  {
    if rows == [] then Refused(NoRows)
    else
      var costs := ValidCosts(rows, |rows|, day, settings.vehicles);
      if GateFails(|rows|, |rows| - |costs|, settings.threshold) then Refused(QualityGate)
      else Assemble(at, noPaths, events, costs, settings, conflicts)
  }

  ghost function ComputeFrom(
    lib: Library, day: string, expenses: Bytes, noPaths: bool, events: set<Event>, settings: Settings, conflicts: seq<ConflictRow>): Computed
  {
    var at, rows := lib.ordinal(day), lib.parse(expenses);
    if at.None? then Refused(BadDate)
    else if rows.None? then Refused(BadExpenseFile)
    else ComputeRows(day, at.value, rows.value, noPaths, events, settings, conflicts)
  }

  /** Validation keeps one cost row per vehicle, so the joins give a report with exactly one row per known vehicle, in order. */
  lemma {:induction false} OneRowPerKnownVehicle(lib: Library, day: string, inputs: Inputs)
    requires Compute(lib, day, inputs).Computed?
    ensures var rows, vehicles := Compute(lib, day, inputs).report.rows, Text.Sort(inputs.settings.vehicles);
            |rows| == |vehicles| && forall i :: 0 <= i < |rows| ==> rows[i].vehicle == vehicles[i]
  {
    var rows := lib.parse(inputs.expenses).value;
    ValidCostsAreDistinct(rows, |rows|, day, inputs.settings.vehicles);
    AssembledRows(lib.ordinal(day).value, inputs.files == {}, EventsIn(lib, inputs.files),
                  ValidCosts(rows, |rows|, day, inputs.settings.vehicles), inputs.settings, inputs.conflicts);
  }

  lemma {:induction false} AssembledRows(
    day: int, noPaths: bool, events: set<Event>, costs: seq<Cost>, settings: Settings, conflicts: seq<ConflictRow>)
    requires DistinctVehicles(costs) && Assemble(day, noPaths, events, costs, settings, conflicts).Computed?
    ensures var rows, vehicles := Assemble(day, noPaths, events, costs, settings, conflicts).report.rows, Text.Sort(settings.vehicles);
            |rows| == |vehicles| && forall i :: 0 <= i < |rows| ==> rows[i].vehicle == vehicles[i]
  {
    hide Text.Sort, Aggregate.GoodTrips, Aggregate.BadIds, Aggregate.Total, Aggregate.ConflictedVehicles, Aggregate.JoinAll,
      CoverageOf, CostMap, DistinctVehicles, OverrideCoverage, Aggregate.Clean;
    var ids, trips := BlockedEventIds(conflicts), BlockedTripIds(conflicts);
    var conflicted := Aggregate.ConflictedVehicles(events, ids, trips);
    var coverage := CoverageOf(settings, day, noPaths, Aggregate.Clean(events, Aggregate.BadIds(events, ids)), conflicted);
    Aggregate.JoinIsOneRowEach(
      Text.Sort(settings.vehicles), Aggregate.GoodTrips(events, ids, trips), costs, conflicted, map v | v in coverage :: coverage[v].complete);
  }

  /** What a report row says: the status is the first obstacle found, coverage and row agree on conflicts, and a profit is
      shown exactly on complete rows. */
  ghost predicate RowIsHonest(row: ReportRow, coverage: map<string, Verdict>, named: set<string>) {
    && row.vehicle in coverage
    && var verdict := coverage[row.vehicle];
       && (row.status == ConflictingEvents <==> verdict.conflict)
       && (row.vehicle in named ==> verdict.conflict)
       && (row.status == IncompleteTelemetry <==> !verdict.conflict && !verdict.complete)
       && (row.status == MissingExpenses <==> !verdict.conflict && verdict.complete && row.fuel.None?)
       && (row.profit.Some? <==> row.status == Complete) && (row.unprofitable.Some? <==> row.status == Complete)
       && (row.status == Complete ==>
             && row.fuel.Some? && row.maintenance.Some?
             && row.profit.value == row.revenue - row.fuel.value - row.maintenance.value
             && (row.unprofitable.value <==> row.profit.value < 0))
  }

  lemma {:induction false} ReportedRowsAreHonest(lib: Library, day: string, inputs: Inputs)
    requires Compute(lib, day, inputs).Computed?
    ensures var r := Compute(lib, day, inputs).report;
            forall row :: row in r.rows ==> RowIsHonest(row, r.coverage, ConflictedBy(inputs.conflicts))
  {
    var rows := lib.parse(inputs.expenses).value;
    ValidCostsAreDistinct(rows, |rows|, day, inputs.settings.vehicles);
    hide Assemble, ValidCosts, DistinctVehicles;
    AssembledRowsAreHonest(lib.ordinal(day).value, inputs.files == {}, EventsIn(lib, inputs.files),
                           ValidCosts(rows, |rows|, day, inputs.settings.vehicles), inputs.settings, inputs.conflicts);
  }

  lemma {:induction false} AssembledRowsAreHonest(
    day: int, noPaths: bool, events: set<Event>, costs: seq<Cost>, settings: Settings, conflicts: seq<ConflictRow>)
    requires DistinctVehicles(costs) && Assemble(day, noPaths, events, costs, settings, conflicts).Computed?
    ensures var r := Assemble(day, noPaths, events, costs, settings, conflicts).report;
            forall row :: row in r.rows ==> RowIsHonest(row, r.coverage, ConflictedBy(conflicts))
  {
    hide Text.Sort, Aggregate.GoodTrips, Aggregate.BadIds, Aggregate.Total, Aggregate.ConflictedVehicles, Aggregate.JoinAll,
      CoverageOf, CostMap, DistinctVehicles, OverrideCoverage, Aggregate.Clean, RowIsHonest, ConflictedBy, Overridden,
      Aggregate.NoPathsRow, Aggregate.RowOf, VehiclesIn;
    var ids, trips := BlockedEventIds(conflicts), BlockedTripIds(conflicts);
    var vehicles, named := Text.Sort(settings.vehicles), ConflictedBy(conflicts);
    var conflicted := Aggregate.ConflictedVehicles(events, ids, trips);
    var good := Aggregate.GoodTrips(events, ids, trips);
    var coverage := CoverageOf(settings, day, noPaths, Aggregate.Clean(events, Aggregate.BadIds(events, ids)), conflicted);
    var telemetry := map v | v in coverage :: coverage[v].complete;
    var before := if noPaths then Aggregate.NoPathsReport(vehicles, costs).rows
                  else Aggregate.JoinAll(vehicles, good, costs, conflicted, telemetry);
    Aggregate.JoinIsOneRowEach(vehicles, good, costs, conflicted, telemetry);
    var r := Assemble(day, noPaths, events, costs, settings, conflicts).report;
    forall i | 0 <= i < |r.rows| ensures RowIsHonest(r.rows[i], r.coverage, named) {
      assert vehicles[i] in vehicles;
      assert before[i] in before;
      CoverageIsTotal(settings, day, noPaths, Aggregate.Clean(events, Aggregate.BadIds(events, ids)), conflicted);
      var row := before[i];
      assert row == if noPaths then Aggregate.NoPathsRow(vehicles[i], CostMap(costs))
                    else Aggregate.RowOf(vehicles[i], good, CostMap(costs), conflicted, telemetry);
      UnnamedRowIsHonest(vehicles[i], good, CostMap(costs), conflicted, coverage, telemetry, noPaths);
      InVehicles(before, row);
      OverrideKeepsHonest(row, coverage, named, VehiclesIn(before));
    }
  }

  lemma InVehicles(rows: seq<ReportRow>, row: ReportRow)
    requires row in rows
    ensures row.vehicle in VehiclesIn(rows)
  {}

  lemma CoverageIsTotal(settings: Settings, day: int, noPaths: bool, clean: set<Event>, conflicted: set<string>)
    ensures var coverage := CoverageOf(settings, day, noPaths, clean, conflicted);
            && settings.vehicles <= coverage.Keys
            && forall v :: v in coverage ==> (coverage[v].conflict <==> !noPaths && v in conflicted) && (noPaths ==> !coverage[v].complete)
  {
    hide SummaryOf, Arrange, IsComplete;
  }

  /** Before the ledger's override a row reflects its own verdict. */
  lemma UnnamedRowIsHonest(vehicle: string, good: Aggregate.Trips, costs: map<string, Cost>, conflicted: set<string>,
                           coverage: map<string, Verdict>, telemetry: map<string, bool>, noPaths: bool)
    requires vehicle in coverage && (coverage[vehicle].conflict <==> !noPaths && vehicle in conflicted)
    requires telemetry == map v | v in coverage :: coverage[v].complete
    requires noPaths ==> !coverage[vehicle].complete
    ensures RowIsHonest(if noPaths then Aggregate.NoPathsRow(vehicle, costs)
                        else Aggregate.RowOf(vehicle, good, costs, conflicted, telemetry), coverage, {})
    ensures (if noPaths then Aggregate.NoPathsRow(vehicle, costs)
             else Aggregate.RowOf(vehicle, good, costs, conflicted, telemetry)).vehicle == vehicle
  {
    hide Aggregate.Total;
  }

  lemma OverrideKeepsHonest(row: ReportRow, coverage: map<string, Verdict>, named: set<string>, vehicles: set<string>)
    requires RowIsHonest(row, coverage, {}) && row.vehicle in vehicles
    ensures RowIsHonest(Overridden(row, named), OverrideCoverage(coverage, named * vehicles), named)
  {}

  function EventsIn(lib: Library, files: set<(Path, Item)>): set<Event> {
    set f, e | f in files && e in lib.decode(f.1.digest) :: e
  }

  /** The report as a function of what the fingerprint covers. */
  ghost function Compute(lib: Library, day: string, inputs: Inputs): Computed {
    ComputeFrom(lib, day, inputs.expenses, inputs.files == {}, EventsIn(lib, inputs.files), inputs.settings, inputs.conflicts)
  }

  function EventsRead(lib: Library, objects: Objects, paths: set<Path>): set<Event> {
    set p, e | p in paths && p in objects && e in lib.decode(objects[p].content) :: e
  }

  /** The report as the code computes it, from the archive objects behind the verified paths. */
  ghost function Recompute(lib: Library, w: World, day: string): Computed
    requires day in w.landing
  {
    if !AllPass(w.objects, w.batches, day) then Refused(BadArchive)
    else
      var paths := AllDayPaths(w.batches, day);
      ComputeFrom(lib, day, w.landing[day], paths == {}, EventsRead(lib, w.objects, paths), w.settings, ConflictsOf(w, day))
  }

  /** Committed manifests list data files only; then a file is verified for a day exactly if the fingerprint covers it. */
  ghost predicate DataOnly(batches: seq<BatchRow>) {
    forall b, rel :: b in batches && b.manifest.Some? && rel in b.manifest.value.files ==> IsData(rel)
  }

  /** No manifest lists a bare file named like the day. */
  ghost predicate NoBareFile(batches: seq<BatchRow>, day: string) {
    forall b, rel :: b in batches && b.manifest.Some? && rel in b.manifest.value.files && OfDay(rel, day) ==> Fingerprinted(rel, day)
  }

  lemma DataHasNoBareFile(batches: seq<BatchRow>, day: string)
    requires DataOnly(batches)
    ensures NoBareFile(batches, day)
  {
    forall b, rel | b in batches && b.manifest.Some? && rel in b.manifest.value.files && OfDay(rel, day) ensures Fingerprinted(rel, day) {
      assert IsData(rel);
    }
  }

  /** The files that are verified and read for a day are the fingerprinted ones exactly if no manifest lists a bare file
      named like the day. */
  lemma {:induction false} SamePathsExactly(batches: seq<BatchRow>, day: string)
    ensures AllDayPaths(batches, day) == (set f | f in FilesOf(batches, day) :: f.0) <==> NoBareFile(batches, day)
  {
    var files := FilesOf(batches, day);
    forall f | f in files ensures f.0 in AllDayPaths(batches, day) && Fingerprinted(f.0.rel, day) {}
    if NoBareFile(batches, day) {
      forall p | p in AllDayPaths(batches, day) ensures exists f :: f in files && f.0 == p {
        var b, rel :| b in batches && b.manifest.Some? && rel in b.manifest.value.files && OfDay(rel, day) && Path(b.id, rel) == p;
        assert Fingerprinted(rel, day);
        assert (Path(b.id, rel), b.manifest.value.files[rel]) in files;
      }
    } else {
      var b, rel :| b in batches && b.manifest.Some? && rel in b.manifest.value.files && OfDay(rel, day) && !Fingerprinted(rel, day);
      assert Path(b.id, rel) in AllDayPaths(batches, day);
      assert Path(b.id, rel).rel == rel;
    }
  }

  lemma {:induction false} SameEvents(lib: Library, objects: Objects, batches: seq<BatchRow>, day: string)
    requires NoBareFile(batches, day) && AllPass(objects, batches, day)
    ensures EventsRead(lib, objects, AllDayPaths(batches, day)) == EventsIn(lib, FilesOf(batches, day))
  {
    hide OfDay, IsData, Fingerprinted;
    var files, paths := FilesOf(batches, day), AllDayPaths(batches, day);
    SamePathsExactly(batches, day);
    forall f | f in files ensures f.0 in paths && f.0 in objects && objects[f.0].content == f.1.digest {
      var b, rel :| b in batches && b.manifest.Some? && rel in b.manifest.value.files && Fingerprinted(rel, day)
                    && f == (Path(b.id, rel), b.manifest.value.files[rel]);
      assert Passes(objects, b, day);
      assert OfDay(rel, day) by { FingerprintedIsOfDay(rel, day); }
      assert Intact(objects, b, rel);
    }
    forall p | p in paths ensures exists f :: f in files && f.0 == p {}
  }

  lemma FingerprintedIsOfDay(rel: Rel, day: string)
    requires Fingerprinted(rel, day)
    ensures OfDay(rel, day)
  {}

  /** The fingerprint covers everything the computation reads: over an intact archive without bare files, the
      report computed from the objects is a function of the fingerprinted inputs. */
  lemma {:induction false} FingerprintCoversComputation(lib: Library, w: World, day: string)
    requires day in w.landing && NoBareFile(w.batches, day) && AllPass(w.objects, w.batches, day)
    ensures Recompute(lib, w, day) == Compute(lib, day, InputsOf(w, day))
  {
    hide ComputeFrom, AllPass, FilesOf, AllDayPaths, EventsRead, EventsIn, NoBareFile;
    SamePathsExactly(w.batches, day);
    SameEvents(lib, w.objects, w.batches, day);
    var files, paths := FilesOf(w.batches, day), AllDayPaths(w.batches, day);
    assert paths == {} <==> files == {} by {
      if files != {} {
        var f :| f in files;
        assert f.0 in paths;
      }
    }
  }

  /** A ledger with one batch whose manifest lists a bare file named like the day. */
  function BareWorld(w: World, day: string, content: string): World {
    var bare := Rel(false, [DT + day]);
    w.(batches := [BatchRow(0, 1, Some(Manifest(1, map[bare := Item(content, 1)], 1)))],
       objects := map[Path(0, bare) := File(content, 1)])
  }

  lemma BareWorldPasses(w: World, day: string, content: string)
    ensures var bare := BareWorld(w, day, content);
            && AllPass(bare.objects, bare.batches, day)
            && AllDayPaths(bare.batches, day) == {Path(0, Rel(false, [DT + day]))}
            && FilesOf(bare.batches, day) == {}
  {
    var bare := Rel(false, [DT + day]);
    var items := map[bare := Item(content, 1)];
    TotalTakesAny(items, bare);
    assert items - {bare} == map[];
    assert (DT + day)[0] == 'd';
    var b := BatchRow(0, 1, Some(Manifest(1, items, 1)));
    assert BareWorld(w, day, content).batches == [b];
    assert b in [b];
    assert Passes(BareWorld(w, day, content).objects, b, day);
    assert OfDay(bare, day) && Path(0, bare) in AllDayPaths([b], day);
  }

  lemma StrangeVehicleIsRefused(
    day: int, events: set<Event>, costs: seq<Cost>, settings: Settings, conflicts: seq<ConflictRow>, e: Event)
    requires e in events && e.vehicle !in settings.vehicles
    ensures Assemble(day, false, events, costs, settings, conflicts).Refused?
  {
    hide CoverageOf, Aggregate.GoodTrips, Aggregate.ConflictedVehicles, Aggregate.JoinAll, Text.Sort, Aggregate.BadIds, Aggregate.Clean;
  }

  lemma NoEventsAreComputed(day: int, costs: seq<Cost>, settings: Settings, conflicts: seq<ConflictRow>)
    ensures Assemble(day, false, {}, costs, settings, conflicts).Computed?
  {
    hide CoverageOf, Aggregate.GoodTrips, Aggregate.ConflictedVehicles, Aggregate.JoinAll, Text.Sort, Aggregate.BadIds, Aggregate.Clean;
  }

  lemma {:induction false} BareWorldRecomputes(lib: Library, w: World, day: string, content: string)
    requires day in w.landing && lib.ordinal(day).Some? && lib.parse(w.landing[day]).Some?
    requires var rows := lib.parse(w.landing[day]).value;
             rows != [] && !GateFails(|rows|, |rows| - |ValidCosts(rows, |rows|, day, w.settings.vehicles)|, w.settings.threshold)
    ensures var rows := lib.parse(w.landing[day]).value;
            Recompute(lib, BareWorld(w, day, content), day)
            == Assemble(lib.ordinal(day).value, false, lib.decode(content), ValidCosts(rows, |rows|, day, w.settings.vehicles),
                        w.settings, ConflictsOf(w, day))
  {
    BareWorldPasses(w, day, content);
    BareEvents(lib, w, day, content);
    hide *;
    RecomputeUnfolds(lib, BareWorld(w, day, content), day);
  }

  lemma BareEvents(lib: Library, w: World, day: string, content: string)
    ensures var bare := BareWorld(w, day, content);
            && EventsRead(lib, bare.objects, {Path(0, Rel(false, [DT + day]))}) == lib.decode(content)
            && bare.landing == w.landing && bare.settings == w.settings && ConflictsOf(bare, day) == ConflictsOf(w, day)
  {
    var bare, path := BareWorld(w, day, content), Path(0, Rel(false, [DT + day]));
    assert path in bare.objects && bare.objects[path].content == content;
    forall e ensures e in EventsRead(lib, bare.objects, {path}) <==> e in lib.decode(content) {
      assert path in {path};
    }
  }

  lemma RecomputeUnfolds(lib: Library, w: World, day: string)
    requires day in w.landing && lib.ordinal(day).Some? && lib.parse(w.landing[day]).Some? && AllPass(w.objects, w.batches, day)
    requires var rows := lib.parse(w.landing[day]).value;
             rows != [] && !GateFails(|rows|, |rows| - |ValidCosts(rows, |rows|, day, w.settings.vehicles)|, w.settings.threshold)
    ensures var rows, paths := lib.parse(w.landing[day]).value, AllDayPaths(w.batches, day);
            Recompute(lib, w, day)
            == Assemble(lib.ordinal(day).value, paths == {}, EventsRead(lib, w.objects, paths),
                        ValidCosts(rows, |rows|, day, w.settings.vehicles), w.settings, ConflictsOf(w, day))
  {
    hide Assemble, AllPass, AllDayPaths, EventsRead, GateFails, ValidCosts;
  }

  /** The hypothesis on data files matters: such a file is verified and read but not fingerprinted. With one content the day
      is refused for a strange vehicle, with another it is computed, and the fingerprinted inputs are the same. */
  lemma {:induction false} BareDayFileEscapesFingerprint(lib: Library, w: World, day: string, x: string, y: string, e: Event)
    requires day in w.landing && lib.ordinal(day).Some? && lib.parse(w.landing[day]).Some?
    requires var rows := lib.parse(w.landing[day]).value;
             rows != [] && !GateFails(|rows|, |rows| - |ValidCosts(rows, |rows|, day, w.settings.vehicles)|, w.settings.threshold)
    requires e in lib.decode(x) && e.vehicle !in w.settings.vehicles && lib.decode(y) == {}
    ensures InputsOf(BareWorld(w, day, x), day) == InputsOf(BareWorld(w, day, y), day)
    ensures Recompute(lib, BareWorld(w, day, x), day).Refused? && Recompute(lib, BareWorld(w, day, y), day).Computed?
  {
    BareWorldPasses(w, day, x);
    BareWorldPasses(w, day, y);
    BareWorldRecomputes(lib, w, day, x);
    BareWorldRecomputes(lib, w, day, y);
    assert InputsOf(BareWorld(w, day, x), day) == InputsOf(BareWorld(w, day, y), day) by {
      hide AllPass, AllDayPaths, FilesOf, GateFails, ValidCosts;
    }
    hide *;
    var rows := lib.parse(w.landing[day]).value;
    var costs := ValidCosts(rows, |rows|, day, w.settings.vehicles);
    StrangeVehicleIsRefused(lib.ordinal(day).value, lib.decode(x), costs, w.settings, ConflictsOf(w, day), e);
    NoEventsAreComputed(lib.ordinal(day).value, costs, w.settings, ConflictsOf(w, day));
  }
}
