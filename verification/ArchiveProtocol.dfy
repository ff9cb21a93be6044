/**
 The raw archive as a state machine: one advisory lock, the raw writer and the gap
 repair as its possible owners, object writes and the committing transaction as
 separate steps, and a crash possible between any two of them.
 */
module ArchiveProtocol {
  import opened Events
  import opened ArchiveOffsets
  import opened Manifests

  /** What a committed batch archives: offset ranges, or an event-time gap of a Kafka snapshot. */
  datatype Source =
    | Raw(ranges: Ranges)
    | Recovered(snapshot: map<nat, (nat, nat)>, rawAfter: int, liveThrough: int)

  /** A row of `pipeline_batches`. */
  datatype Batch = Batch(source: Source, rowsIn: nat, rowsValid: nat, manifest: Manifest)

  /** A row of `archive_partition_offsets`. */
  datatype Mark = Mark(next: nat, batch: nat)

  type Ledger = map<nat, Batch>

  /** What the lock owner has decided and still has to write. */
  datatype Job = Job(id: nat, source: Source, rowsIn: nat, files: Items)

  datatype Writer =
    | Free
    | Planning(frame: Frame)
    | Writing(job: Job, todo: set<Rel>)
    | Described(job: Job, manifest: Manifest)

  datatype State = State(
    ledger: Ledger, marks: map<nat, Mark>, objects: Objects, verified: map<nat, Manifest>, writer: Writer)

  const START := State(map[], map[], map[], map[], Free)

  function Nexts(marks: map<nat, Mark>): Marks {
    map p | p in marks :: marks[p].next
  }

  /* ---- allocation ---- */

  predicate IsMaxId(ids: set<nat>, m: nat) {
    m in ids && forall i :: i in ids ==> i <= m
  }

  lemma {:induction false} MaxIdExists(ids: set<nat>)
    requires ids != {}
    ensures exists m :: IsMaxId(ids, m)
  {
    var x := Pick(ids);
    var rest := ids - {x};
    forall i | i in ids ensures i == x || i in rest {}
    if rest == {} {
      assert IsMaxId(ids, x);
    } else {
      MaxIdExists(rest);
      var m :| IsMaxId(rest, m);
      assert IsMaxId(ids, if x > m then x else m);
    }
  }

  /** `COALESCE(max(batch_id), -1) + 1`: zero over an empty ledger, otherwise one more than the largest id in it. */
  function NextId(ledger: Ledger): (n: nat)
    ensures forall id :: id in ledger ==> id < n
    ensures n == 0 || n - 1 in ledger
  {
    if ledger.Keys == {} then 0 else
      MaxIdExists(ledger.Keys);
      var m :| m in ledger.Keys && IsMaxId(ledger.Keys, m);
      m + 1
  }

  /* ---- the raw writer's decision ---- */

  datatype Plan =
    | NothingToDo
    | ForwardGap(gaps: map<nat, Gap>)
    | AlreadyCommitted(id: nat)
    | Discontinuous(errors: map<nat, Gap>)
    | Allocate(frame: Frame, id: nat)

  predicate Committed(ledger: Ledger, source: Source) {
    exists id :: id in ledger && ledger[id].source == source
  }

  function IdOf(ledger: Ledger, source: Source): (id: nat)
    requires Committed(ledger, source)
    ensures id in ledger && ledger[id].source == source
  {
    var ids := set id | id in ledger && ledger[id].source == source;
    assert ids != {} by {
      var id :| id in ledger && ledger[id].source == source;
      assert id in ids;
    }
    MaxIdExists(ids);
    var m :| m in ids && IsMaxId(ids, m);
    m
  }

  /** `_process_batch` up to the allocation of the batch id. */
  function Decide(ledger: Ledger, committed: Marks, frame: Frame): Plan {
    if frame == {} then NothingToDo
    else if Gaps(RangesOf(frame), committed) != map[] then ForwardGap(Gaps(RangesOf(frame), committed))
    else
      var trimmed := Trimmed(frame, committed);
      if trimmed == {} then NothingToDo
      else if Committed(ledger, Raw(RangesOf(trimmed))) then AlreadyCommitted(IdOf(ledger, Raw(RangesOf(trimmed))))
      else if ContinuityErrors(RangesOf(trimmed), committed) != map[] then
        Discontinuous(ContinuityErrors(RangesOf(trimmed), committed))
      else Allocate(trimmed, NextId(ledger))
  }

  /* ---- objects ---- */

  function WithoutRoot(objects: Objects, id: nat): Objects {
    map p | p in objects && p.batch != id :: objects[p]
  }

  /** The finished write of an attempt holds only nonempty data files with the given total. */
  ghost predicate GoodFiles(files: Items, rows: nat) {
    && (forall rel :: rel in files ==> IsData(rel) && files[rel].rows > 0)
    && TotalRows(files) == rows
  }

  /* ---- the steps ---- */

  datatype Step =
    | TakeRaw(frame: Frame)
    | GiveUp
    | StartRaw(files: Items)
    | StartRepair(source: Source, files: Items)
    | WriteFile(rel: Rel)
    | Describe
    | Commit
    | Crash

  ghost predicate Enabled(s: State, step: Step) {
    match step
    case TakeRaw(frame) => s.writer.Free? && Contiguous(frame)
    case GiveUp => s.writer.Planning? && !Decide(s.ledger, Nexts(s.marks), s.writer.frame).Allocate?
    case StartRaw(files) =>
      s.writer.Planning? && Decide(s.ledger, Nexts(s.marks), s.writer.frame).Allocate? &&
      GoodFiles(files, TotalRows(files)) && TotalRows(files) <= |Decide(s.ledger, Nexts(s.marks), s.writer.frame).frame|
    case StartRepair(source, files) => s.writer.Free? && source.Recovered? && files != map[] && GoodFiles(files, TotalRows(files))
    case WriteFile(rel) => s.writer.Writing? && rel in s.writer.todo
    case Describe =>
      s.writer.Writing? && s.writer.todo == {} &&
      TotalRows(Listed(s.objects, s.writer.job.id)) == TotalRows(s.writer.job.files)
    case Commit => s.writer.Described? && s.writer.job.id !in s.ledger && !Committed(s.ledger, s.writer.job.source)
    case Crash => true
  }

  /** Raw writes start from an emptied root; repairs write beside whatever is there. */
  ghost function Take(s: State, step: Step): State
    requires Enabled(s, step)
  {
    match step
    case TakeRaw(frame) => s.(writer := Planning(frame))
    case GiveUp => s.(writer := Free)
    case StartRaw(files) =>
      var plan := Decide(s.ledger, Nexts(s.marks), s.writer.frame);
      s.(objects := WithoutRoot(s.objects, plan.id),
         writer := Writing(Job(plan.id, Raw(RangesOf(plan.frame)), |plan.frame|, files), files.Keys))
    case StartRepair(source, files) =>
      s.(writer := Writing(Job(NextId(s.ledger), source, TotalRows(files), files), files.Keys))
    case WriteFile(rel) =>
      var job := s.writer.job;
      if rel in job.files then
        s.(objects := s.objects[Path(job.id, rel) := File(job.files[rel].digest, job.files[rel].rows)],
           writer := Writing(job, s.writer.todo - {rel}))
      else s
    case Describe =>
      var job := s.writer.job;
      s.(writer := Described(job, Manifest(1, Listed(s.objects, job.id), TotalRows(job.files))))
    case Commit => CommitJob(s, s.writer.job, s.writer.manifest)
    case Crash => s.(writer := Free)
  }

  /** One transaction: ledger row, verification row, and for raw batches the high-water marks. */
  function CommitJob(s: State, job: Job, manifest: Manifest): State {
    State(s.ledger[job.id := Batch(job.source, job.rowsIn, manifest.rows, manifest)],
          if job.source.Raw? then s.marks + map p | p in job.source.ranges :: Mark(job.source.ranges[p].end, job.id) else s.marks,
          s.objects,
          s.verified[job.id := manifest],
          Free)
  }

  ghost predicate CanRun(s: State, steps: seq<Step>)
    decreases |steps|
  {
    steps == [] || (Enabled(s, steps[0]) && CanRun(Take(s, steps[0]), steps[1..]))
  }

  ghost function RunSteps(s: State, steps: seq<Step>): State
    requires CanRun(s, steps)
    decreases |steps|
  {
    if steps == [] then s else RunSteps(Take(s, steps[0]), steps[1..])
  }
}
