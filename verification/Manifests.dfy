/** Archive objects, their manifests, and the verification of committed files for one day. */
module Manifests {
  import opened Events

  /** A path relative to a batch root, split at the slashes. */
  datatype Rel = Rel(absolute: bool, parts: seq<string>)

  datatype Path = Path(batch: nat, rel: Rel)

  /** Stored bytes (standing for their injective digest) and the Parquet row count. */
  datatype File = File(content: string, rows: nat)

  type Objects = map<Path, File>

  datatype Item = Item(digest: string, rows: nat)

  type Items = map<Rel, Item>

  datatype Manifest = Manifest(version: int, files: Items, rows: nat)

  datatype ManifestError = RowMismatch | NoManifest | InvalidManifest | InvalidTotal | UnsafePath | MissingOrChanged

  datatype Result<T> = Ok(value: T) | Error(error: ManifestError)

  predicate EndsWith(s: string, suffix: string) {
    |suffix| <= |s| && s[|s| - |suffix|..] == suffix
  }

  const DT := "dt="
  const PARQUET := ".parquet"

  /** The glob `dt=*` / `*.parquet` below a batch root. */
  predicate IsData(rel: Rel) {
    !rel.absolute && |rel.parts| == 2 && DT <= rel.parts[0] && EndsWith(rel.parts[1], PARQUET)
  }

  predicate Unsafe(rel: Rel) {
    rel.absolute || ".." in rel.parts
  }

  /** Python indexes the first part, so an empty path is an error there too. */
  predicate OfDay(rel: Rel, day: string) {
    rel.parts != [] && rel.parts[0] == DT + day
  }

  function DataUnder(objects: Objects, batch: nat): set<Rel> {
    set p | p in objects && p.batch == batch && IsData(p.rel) :: p.rel
  }

  lemma DataUnderMembers(objects: Objects, batch: nat, rel: Rel)
    ensures rel in DataUnder(objects, batch) <==> Path(batch, rel) in objects && IsData(rel)
  {
    if Path(batch, rel) in objects && IsData(rel) {
      assert Path(batch, rel).rel == rel;
    }
  }

  /** What a glob of the batch root finds, with digests and row counts. */
  function Listed(objects: Objects, batch: nat): Items {
    map rel | rel in DataUnder(objects, batch) ::
      Item(objects[Path(batch, rel)].content, objects[Path(batch, rel)].rows)
  }

  /* ---- row totals ---- */

  ghost function TotalRows(items: Items): nat {
    if items == map[] then 0 else
      var rel :| rel in items;
      items[rel].rows + TotalRows(items - {rel})
  }

  lemma {:induction false} TotalTakesAny(items: Items, rel: Rel)
    requires rel in items
    ensures TotalRows(items) == items[rel].rows + TotalRows(items - {rel})
    decreases |items|
  {
    var x :| x in items && TotalRows(items) == items[x].rows + TotalRows(items - {x});
    if x != rel {
      TotalTakesAny(items - {x}, rel);
      TotalTakesAny(items - {rel}, x);
      assert items - {x} - {rel} == items - {rel} - {x};
    }
  }

  /** If a larger set of nonempty files has the same total, it is the same set. */
  lemma {:induction false} SameTotalSameFiles(part: Items, whole: Items)
    requires forall rel :: rel in part ==> rel in whole && whole[rel] == part[rel]
    requires forall rel :: rel in whole ==> whole[rel].rows > 0
    requires TotalRows(part) == TotalRows(whole)
    ensures part == whole
    decreases |whole|
  {
    if rel :| rel in part {
      TotalTakesAny(part, rel);
      TotalTakesAny(whole, rel);
      SameTotalSameFiles(part - {rel}, whole - {rel});
      assert forall r :: r in whole ==> r == rel || r in whole - {rel};
    } else if rel :| rel in whole {
      TotalTakesAny(whole, rel);
    }
  }

  method SumRows(items: Items) returns (total: nat)
    ensures total == TotalRows(items)
  {
    total := 0;
    var todo := items;
    while todo != map[]
      invariant total + TotalRows(todo) == TotalRows(items)
      decreases |todo|
    {
      var rel :| rel in todo;
      TotalTakesAny(todo, rel);
      total := total + todo[rel].rows;
      todo := todo - {rel};
    }
  }

  /** Describe every object of a finished write; refuse when the rows do not add up. */
  method BuildManifest(objects: Objects, batch: nat, expectedRows: nat) returns (r: Result<Manifest>)
    ensures r == if TotalRows(Listed(objects, batch)) == expectedRows
                 then Ok(Manifest(1, Listed(objects, batch), expectedRows)) else Error(RowMismatch)
  {
    var files: Items := map[];
    var todo := DataUnder(objects, batch);
    while todo != {}
      invariant todo <= DataUnder(objects, batch)
      invariant forall rel :: rel in files <==> rel in DataUnder(objects, batch) && rel !in todo
      invariant forall rel :: rel in files ==> files[rel] == Listed(objects, batch)[rel]
      decreases todo
    {
      var rel :| rel in todo;
      todo := todo - {rel};
      files := files[rel := Item(objects[Path(batch, rel)].content, objects[Path(batch, rel)].rows)];
    }
    assert files == Listed(objects, batch);
    var total := SumRows(files);
    if total != expectedRows {
      return Error(RowMismatch);
    }
    return Ok(Manifest(1, files, expectedRows));
  }

  /* ---- verification of committed batches ---- */

  /** The columns of a committed batch that verification reads. */
  datatype BatchRow = BatchRow(id: nat, rowsValid: nat, manifest: Option<Manifest>)

  predicate WellFormedRow(b: BatchRow) {
    b.manifest.Some? && b.manifest.value.version == 1 && b.manifest.value.rows == b.rowsValid
  }

  ghost predicate Sound(b: BatchRow) {
    WellFormedRow(b) && TotalRows(b.manifest.value.files) == b.manifest.value.rows
  }

  predicate Intact(objects: Objects, b: BatchRow, rel: Rel)
    requires b.manifest.Some? && rel in b.manifest.value.files
  {
    Path(b.id, rel) in objects && objects[Path(b.id, rel)].content == b.manifest.value.files[rel].digest
  }

  /** Paths that verification of one batch returns for a day. */
  function DayPaths(b: BatchRow, day: string): set<Path>
    requires b.manifest.Some?
  {
    set rel | rel in b.manifest.value.files && OfDay(rel, day) :: Path(b.id, rel)
  }

  /** A batch passes when its manifest is sound, its paths are safe and its files of the day are unchanged. */
  ghost predicate Passes(objects: Objects, b: BatchRow, day: string) {
    && Sound(b)
    && (forall rel :: rel in b.manifest.value.files ==> !Unsafe(rel) && rel.parts != [])
    && (forall rel :: rel in b.manifest.value.files && OfDay(rel, day) ==> Intact(objects, b, rel))
  }

  /** A batch passes exactly if it has a version 1 manifest whose total is the batch's row count and the sum of its files,
      all listed paths are relative, not empty and without "..", and every file under the day's directory is there with
      the listed bytes. */
  lemma PassesExactly(objects: Objects, b: BatchRow, day: string)
    ensures Passes(objects, b, day) <==>
              && b.manifest.Some? && b.manifest.value.version == 1
              && b.manifest.value.rows == b.rowsValid == TotalRows(b.manifest.value.files)
              && (forall rel :: rel in b.manifest.value.files ==> !rel.absolute && rel.parts != [] && ".." !in rel.parts)
              && (forall rel :: rel in b.manifest.value.files && rel.parts[0] == "dt=" + day ==>
                    Path(b.id, rel) in objects && objects[Path(b.id, rel)].content == b.manifest.value.files[rel].digest)
  {
    hide TotalRows;
  }

  method VerifyBatch(objects: Objects, b: BatchRow, day: string) returns (r: Result<set<Path>>)
    ensures r.Ok? <==> Passes(objects, b, day)
    ensures r.Ok? ==> r.value == DayPaths(b, day)
  {
    if b.manifest.None? {
      return Error(NoManifest);
    }
    var manifest := b.manifest.value;
    if manifest.version != 1 || manifest.rows != b.rowsValid {
      return Error(InvalidManifest);
    }
    var total := SumRows(manifest.files);
    if total != manifest.rows {
      return Error(InvalidTotal);
    }
    var output: set<Path> := {};
    var todo := manifest.files.Keys;
    while todo != {}
      invariant todo <= manifest.files.Keys
      invariant output == set rel | rel in manifest.files && rel !in todo && OfDay(rel, day) :: Path(b.id, rel)
      invariant forall rel :: rel in manifest.files && rel !in todo ==> !Unsafe(rel) && rel.parts != []
      invariant forall rel :: rel in manifest.files && rel !in todo && OfDay(rel, day) ==> Intact(objects, b, rel)
      decreases todo
    {
      var rel :| rel in todo;
      if Unsafe(rel) || rel.parts == [] {
        return Error(UnsafePath);
      }
      todo := todo - {rel};
      if OfDay(rel, day) {
        if !Intact(objects, b, rel) {
          return Error(MissingOrChanged);
        }
        output := output + {Path(b.id, rel)};
      }
    }
    return Ok(output);
  }

  ghost predicate AllPass(objects: Objects, batches: seq<BatchRow>, day: string) {
    forall b :: b in batches ==> Passes(objects, b, day)
  }

  function AllDayPaths(batches: seq<BatchRow>, day: string): set<Path> {
    set b, rel | b in batches && b.manifest.Some? && rel in b.manifest.value.files && OfDay(rel, day) :: Path(b.id, rel)
  }

  /** Verify every batch for a day: all files of the day, or the first failure. */
  method VerifiedPaths(objects: Objects, batches: seq<BatchRow>, day: string) returns (r: Result<set<Path>>)
    ensures r.Ok? <==> AllPass(objects, batches, day)
    ensures r.Ok? ==> r.value == AllDayPaths(batches, day)
  {
    var output: set<Path> := {};
    for i := 0 to |batches|
      invariant AllPass(objects, batches[..i], day)
      invariant output == AllDayPaths(batches[..i], day)
    {
      var one := VerifyBatch(objects, batches[i], day);
      assert batches[..i + 1] == batches[..i] + [batches[i]];
      if one.Error? {
        assert batches[i] in batches && !Passes(objects, batches[i], day);
        return Error(one.error);
      }
      AddBatchPaths(batches[..i], batches[i], day);
      output := output + one.value;
    }
    assert batches[..|batches|] == batches;
    return Ok(output);
  }

  lemma AddBatchPaths(batches: seq<BatchRow>, b: BatchRow, day: string)
    requires b.manifest.Some?
    ensures AllDayPaths(batches + [b], day) == AllDayPaths(batches, day) + DayPaths(b, day)
  {
    assert forall x :: x in batches + [b] <==> x in batches || x == b;
  }

  /** Files found by the glob are safe and belong to exactly one day. */
  lemma DataBelongsToOneDay(rel: Rel)
    requires IsData(rel)
    ensures !Unsafe(rel) && rel.parts != []
    ensures OfDay(rel, rel.parts[0][|DT|..])
    ensures forall day :: OfDay(rel, day) ==> day == rel.parts[0][|DT|..]
  {
    assert rel.parts[0] == DT + rel.parts[0][|DT|..];
    assert rel.parts[0][0] == 'd';
    assert rel.parts[1][|rel.parts[1]| - 1] == PARQUET[|PARQUET| - 1] == 't' by {
      assert rel.parts[1][|rel.parts[1]| - |PARQUET|..][|PARQUET| - 1] == PARQUET[|PARQUET| - 1];
    }
    forall day | OfDay(rel, day) ensures day == rel.parts[0][|DT|..] {
      assert (DT + day)[|DT|..] == day;
    }
  }
}
