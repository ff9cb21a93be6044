/** The raw archive as mutable tables and object storage: whole attempts of the writer and of the gap repair. */
module ArchiveStore {
  import GapRecovery
  import Ledgers
  import opened Events
  import opened ArchiveOffsets
  import opened Manifests
  import opened ArchiveProtocol
  import opened ArchiveProof
  import opened Backfill

  datatype Outcome =
    | Busy
    | Nothing
    | Gapped(gaps: map<nat, Gap>)
    | Present(id: nat)
    | Inconsistent
    | Broken(errors: map<nat, Gap>)
    | Archived(id: nat)
    | NoMaxima
    | Unretained
    | Mismatched

  function Rooted(id: nat, files: Items): Objects {
    map p: Path | p in (set rel | rel in files :: Path(id, rel)) :: File(files[p.rel].digest, files[p.rel].rows)
  }

  lemma RootedMembers(id: nat, files: Items, p: Path)
    ensures p in Rooted(id, files) <==> p.batch == id && p.rel in files
    ensures p in Rooted(id, files) ==> Rooted(id, files)[p] == File(files[p.rel].digest, files[p.rel].rows)
  {
    if p.batch == id && p.rel in files {
      assert p == Path(id, p.rel);
    }
  }

  /** Exactly the partitions of the kept records move: each to one past its last record, in the name of the batch. */
  ghost predicate MarksAdvance(before: map<nat, Mark>, after: map<nat, Mark>, kept: Frame, id: nat) {
    && (forall p :: p in after <==> p in before || exists r :: r in kept && r.partition == p)
    && (forall r :: r in kept ==> r.partition in after && after[r.partition].batch == id && r.offset < after[r.partition].next)
    && (forall p :: p in after && (exists r :: r in kept && r.partition == p) ==> Ends(kept, p, after[p].next))
    && (forall p :: p in before && !(exists r :: r in kept && r.partition == p) ==> after[p] == before[p])
  }

  ghost predicate Ends(kept: Frame, p: nat, next: nat) {
    next > 0 && Position(p, next - 1) in kept
  }

  /** Refused, skipped or archived, from the records and the marks alone. */
  ghost predicate AnswersExactly(frame: Frame, marks: map<nat, Mark>, outcome: Outcome) {
    && (outcome.Gapped? <==> SkipsAhead(frame, marks))
    && (outcome.Archived? <==> !SkipsAhead(frame, marks) && exists r :: r in frame && IsNew(r, marks))
    && (outcome == Nothing <==> !SkipsAhead(frame, marks) && forall r :: r in frame ==> !IsNew(r, marks))
  }

  /** One new batch, over exactly the kept records, with the files written from them, and the marks moved past them. */
  ghost predicate ArchivesExactly(s: State, t: State, kept: Frame, id: nat, write: Frame -> Items) {
    && id !in s.ledger && t.ledger.Keys == s.ledger.Keys + {id}
    && (forall i :: i in s.ledger ==> t.ledger[i] == s.ledger[i])
    && t.ledger[id].source == Raw(RangesOf(kept)) && t.ledger[id].rowsIn == |kept|
    && t.ledger[id].manifest.files == write(kept) == Listed(t.objects, id)
    && MarksAdvance(s.marks, t.marks, kept, id)
  }

  ghost predicate FollowsPlan(plan: Plan, outcome: Outcome) {
    match plan
    case NothingToDo => outcome == Nothing
    case ForwardGap(gaps) => outcome == Gapped(gaps)
    case AlreadyCommitted(id) => outcome == Present(id) || outcome == Inconsistent
    case Discontinuous(errors) => outcome == Broken(errors)
    case Allocate(_, id) => outcome == Archived(id)
  }

  lemma PlanAnswers(s: State, frame: Frame, plan: Plan, outcome: Outcome)
    requires Reachable(s) && Unbroken(frame) && plan == Decide(s.ledger, Nexts(s.marks), frame) && FollowsPlan(plan, outcome)
    ensures AnswersExactly(frame, s.marks, outcome)
    ensures plan.Allocate? ==> plan.id == NextId(s.ledger) && plan.frame == set r | r in frame && IsNew(r, s.marks)
  {
    PlannedId(s, frame);
    hide Decide, Reachable, Unbroken, SkipsAhead, IsNew, Inv;
    ReachableIsSound(s);
    DecisionExactly(s, frame);
    DeliveriesNeverCollide(s, frame) by { UnbrokenIsContiguous(frame); }
  }

  lemma PlannedId(s: State, frame: Frame)
    ensures var plan := Decide(s.ledger, Nexts(s.marks), frame); plan.Allocate? ==> plan.id == NextId(s.ledger)
  {
    hide RangesOf, Trimmed, Gaps, ContinuityErrors, Committed, IdOf, NextId;
  }

  lemma CommitArchives(s: State, t: State, kept: Frame, id: nat, write: Frame -> Items)
    requires id == NextId(s.ledger)
    requires id in t.ledger && t.ledger == s.ledger[id := Batch(Raw(RangesOf(kept)), |kept|, TotalRows(write(kept)), t.ledger[id].manifest)]
    requires t.ledger[id].manifest.files == write(kept) == Listed(t.objects, id) && MarksAdvance(s.marks, t.marks, kept, id)
    ensures ArchivesExactly(s, t, kept, id, write)
  {
    hide RangesOf, TotalRows, Listed, MarksAdvance;
  }

  lemma EndsBecomeMarks(marks: map<nat, Mark>, kept: Frame, id: nat)
    ensures MarksAdvance(marks, marks + map p | p in RangesOf(kept) :: Mark(RangesOf(kept)[p].end, id), kept, id)
  {
    var after := marks + map p | p in RangesOf(kept) :: Mark(RangesOf(kept)[p].end, id);
    forall r | r in kept ensures r.partition in RangesOf(kept) && r.offset < RangesOf(kept)[r.partition].end {
      RangeBounds(kept, r);
    }
    forall p | p in RangesOf(kept) ensures Ends(kept, p, RangesOf(kept)[p].end) {
      RangeEndsAreRecords(kept, p);
    }
    hide RangesOf;
    forall p ensures p in RangesOf(kept) <==> exists r :: r in kept && r.partition == p {
      if p in RangesOf(kept) {
        assert Position(p, RangesOf(kept)[p].end - 1) in kept;
      }
    }
  }

  /** Some run of protocol steps leads from one state to the other. */
  ghost predicate Steps(s: State, t: State) {
    exists steps :: CanRun(s, steps) && RunSteps(s, steps) == t
  }

  lemma NoStep(s: State)
    ensures Steps(s, s)
  {
    assert CanRun(s, []) && RunSteps(s, []) == s;
  }

  lemma StepThen(s: State, step: Step, t: State)
    requires Enabled(s, step) && Steps(Take(s, step), t)
    ensures Steps(s, t)
  {
    var steps :| CanRun(Take(s, step), steps) && RunSteps(Take(s, step), steps) == t;
    assert ([step] + steps)[1..] == steps;
    assert CanRun(s, [step] + steps) && RunSteps(s, [step] + steps) == t;
  }

  /** The state after all files of the job are written. */
  function AllWritten(s: State): State
    requires s.writer.Writing?
  {
    s.(objects := s.objects + Rooted(s.writer.job.id, s.writer.job.files), writer := Writing(s.writer.job, {}))
  }

  /** Writing all remaining files, one step each, fills the root. */
  lemma {:induction false} WriteAll(s: State, todo: set<Rel>, t: State)
    requires s.writer.Writing? && s.writer.todo == todo <= s.writer.job.files.Keys
    requires Steps(AllWritten(s), t)
    requires forall rel :: rel in s.writer.job.files && rel !in todo ==>
               Path(s.writer.job.id, rel) in s.objects
               && s.objects[Path(s.writer.job.id, rel)] == File(s.writer.job.files[rel].digest, s.writer.job.files[rel].rows)
    ensures Steps(s, t)
    decreases |todo|
  {
    hide Steps, Rooted;
    var job := s.writer.job;
    if todo == {} {
      NothingLeftToWrite(s);
    } else {
      var rel :| rel in todo;
      var next := Take(s, WriteFile(rel));
      OneFileLess(s, rel);
      WriteAll(next, todo - {rel}, t);
      StepThen(s, WriteFile(rel), t);
    }
  }

  lemma NothingLeftToWrite(s: State)
    requires s.writer.Writing? && s.writer.todo == {}
    requires forall rel :: rel in s.writer.job.files ==>
               Path(s.writer.job.id, rel) in s.objects
               && s.objects[Path(s.writer.job.id, rel)] == File(s.writer.job.files[rel].digest, s.writer.job.files[rel].rows)
    ensures AllWritten(s) == s
  {
    hide Rooted;
    var rooted := Rooted(s.writer.job.id, s.writer.job.files);
    forall p | p in rooted ensures p in s.objects && s.objects[p] == rooted[p] {
      RootedMembers(s.writer.job.id, s.writer.job.files, p);
      assert p == Path(s.writer.job.id, p.rel);
    }
    assert s.objects + rooted == s.objects;
  }

  lemma OneFileLess(s: State, rel: Rel)
    requires s.writer.Writing? && rel in s.writer.todo && rel in s.writer.job.files
    ensures AllWritten(Take(s, WriteFile(rel))) == AllWritten(s)
  {
    hide Rooted;
    var job := s.writer.job;
    var p := Path(job.id, rel);
    RootedMembers(job.id, job.files, p);
    var rooted := Rooted(job.id, job.files);
    assert s.objects[p := rooted[p]] + rooted == s.objects + rooted;
  }

  class Archive {
    var ledger: Ledger
    var marks: map<nat, Mark>
    var objects: Objects
    var verified: map<nat, Manifest>
    var locked: bool

    constructor ()
      ensures View() == START && !locked
    {
      ledger, marks, objects, verified, locked := map[], map[], map[], map[], false;
    }

    function View(): State
      reads this
    {
      State(ledger, marks, objects, verified, Free)
    }

    /** Overwrite the marks of the batch's partitions. */
    method AdvanceOffsets(ranges: Ranges, id: nat)
      modifies this`marks
      ensures marks == old(marks) + map p | p in ranges :: Mark(ranges[p].end, id)
    {
      var todo := ranges.Keys;
      while todo != {}
        invariant todo <= ranges.Keys
        invariant marks == old(marks) + map p | p in ranges && p !in todo :: Mark(ranges[p].end, id)
        decreases todo
      {
        Inhabited(todo);
        var p :| p in todo;
        marks := marks[p := Mark(ranges[p].end, id)];
        todo := todo - {p};
      }
    }

    /** The committing transaction of either writer. */
    method CommitAttempt(job: Job, manifest: Manifest)
      modifies this`ledger, this`verified, this`marks
      ensures View() == CommitJob(old(View()), job, manifest)
    {
      ledger := ledger[job.id := Batch(job.source, job.rowsIn, manifest.rows, manifest)];
      verified := verified[job.id := manifest];
      if job.source.Raw? {
        AdvanceOffsets(job.source.ranges, job.id);
      }
    }

    /** One raw micro-batch without interruption. `write` is the partitioned Parquet write of the kept records. */
    method ProcessBatch(frame: Frame, write: Frame -> Items) returns (outcome: Outcome)
      requires forall f :: GoodFiles(write(f), TotalRows(write(f))) && TotalRows(write(f)) <= |f|
      modifies this`ledger, this`verified, this`marks, this`objects
      ensures locked ==> outcome == Busy
      ensures !outcome.Archived? ==> View() == old(View())
      ensures !locked ==> match Decide(old(ledger), Nexts(old(marks)), frame)
                          case NothingToDo => outcome == Nothing
                          case ForwardGap(gaps) => outcome == Gapped(gaps)
                          case AlreadyCommitted(id) => outcome == Present(id) || outcome == Inconsistent
                          case Discontinuous(errors) => outcome == Broken(errors)
                          case Allocate(kept, id) =>
                            && outcome == Archived(id) && id in ledger
                            && ledger == old(ledger)[id := Batch(Raw(RangesOf(kept)), |kept|, TotalRows(write(kept)), ledger[id].manifest)]
                            && ledger[id].manifest.files == write(kept) == Listed(objects, id)
      ensures !locked && Unbroken(frame) && Reachable(old(View())) ==>
                AnswersExactly(frame, old(marks), outcome)
      ensures !locked && Unbroken(frame) && Reachable(old(View())) && outcome.Archived? ==>
                ArchivesExactly(old(View()), View(), (set r | r in frame && IsNew(r, old(marks))), outcome.id, write)
      ensures Contiguous(frame) ==> Steps(old(View()), View())
    {
      hide Decide, RangesOf, GoodFiles, Listed, TotalRows, Contiguous, Steps, Unbroken, Reachable, SkipsAhead, IsNew, MarksAdvance, Inv,
        AnswersExactly, ArchivesExactly;
      ghost var s := View();
      NoStep(s);
      if locked {
        return Busy;
      }
      var plan := PlanBatch(frame);
      match plan {
        case NothingToDo => outcome := Nothing;
        case ForwardGap(gaps) => outcome := Gapped(gaps);
        case AlreadyCommitted(id) => outcome := if ledger[id].rowsIn != |Trimmed(frame, Nexts(marks))| then Inconsistent else Present(id);
        case Discontinuous(errors) => outcome := Broken(errors);
        case Allocate(kept, id) => outcome := WriteAndCommit(frame, kept, id, write(kept));
      }
      if Unbroken(frame) && Reachable(s) {
        PlanAnswers(s, frame, plan, outcome);
        if plan.Allocate? {
          CommitArchives(s, View(), plan.frame, plan.id, write);
        }
      }
    }

    /** The writer's reads: marks of the batch's partitions, the fingerprint lookup, continuity, the next id. */
    method PlanBatch(frame: Frame) returns (plan: Plan)
      ensures plan == Decide(ledger, Nexts(marks), frame)
      ensures plan.AlreadyCommitted? ==> plan.id in ledger
    {
      if frame == {} {
        return NothingToDo;
      }
      var thresholds, gaps := ReplayPlan(RangesOf(frame), Nexts(marks));
      if gaps != map[] {
        return ForwardGap(gaps);
      }
      var kept := Trim(frame, thresholds);
      if kept == {} {
        return NothingToDo;
      }
      var source := Raw(RangesOf(kept));
      if Committed(ledger, source) {
        return AlreadyCommitted(IdOf(ledger, source));
      }
      var errors := ContinuityErrors(RangesOf(kept), Nexts(marks));
      if errors != map[] {
        return Discontinuous(errors);
      }
      return Allocate(kept, NextId(ledger));
    }

    method WriteAndCommit(ghost frame: Frame, kept: Frame, id: nat, files: Items) returns (outcome: Outcome)
      requires Decide(ledger, Nexts(marks), frame) == Allocate(kept, id)
      requires GoodFiles(files, TotalRows(files)) && TotalRows(files) <= |kept|
      modifies this`ledger, this`verified, this`marks, this`objects
      ensures outcome == Archived(id)
      ensures var manifest := Manifest(1, files, TotalRows(files));
              && ledger == old(ledger)[id := Batch(Raw(RangesOf(kept)), |kept|, TotalRows(files), manifest)]
              && Listed(objects, id) == files
      ensures MarksAdvance(old(marks), marks, kept, id)
      ensures Contiguous(frame) ==> Steps(old(View()), View())
    {
      ghost var s := View();
      var total := SumRows(files);
      var job := Job(id, Raw(RangesOf(kept)), |kept|, files);
      objects := WithoutRoot(objects, id) + Rooted(id, files);
      OverwrittenRootLists(old(objects), id, files);
      var described := BuildManifest(objects, id, total);
      CommitAttempt(job, described.value);
      EndsBecomeMarks(s.marks, kept, id);
      if Contiguous(frame) {
        RawAttemptIsARun(s, frame, kept, id, files, View());
      }
      outcome := Archived(id);
    }

    /** One gap repair: it writes beside whatever an earlier attempt left under its root, so it commits
        exactly when nothing foreign is there and the same snapshot was not committed before. */
    method Repair(source: Source, files: Items) returns (outcome: Outcome)
      requires source.Recovered? && files != map[] && GoodFiles(files, TotalRows(files))
      requires forall p :: p in objects ==> objects[p].rows > 0
      modifies this`ledger, this`verified, this`marks, this`objects
      ensures locked ==> outcome == Busy && View() == old(View())
      ensures marks == old(marks)
      ensures !locked ==> var id := NextId(old(ledger));
                          && objects == old(objects) + Rooted(id, files)
                          && (outcome == Archived(id) || outcome == Inconsistent)
                          && (outcome == Archived(id) <==> DataUnder(old(objects), id) <= files.Keys && !Committed(old(ledger), source))
                          && (outcome == Inconsistent ==> ledger == old(ledger) && verified == old(verified))
                          && (outcome == Archived(id) ==>
                                ledger == old(ledger)[id := Batch(source, TotalRows(files), TotalRows(files), Manifest(1, files, TotalRows(files)))])
      ensures Steps(old(View()), View())
    {
      hide Rooted, Listed, DataUnder, Steps, Committed;
      ghost var s := View();
      NoStep(s);
      if locked {
        return Busy;
      }
      var id := NextId(ledger);
      var total := SumRows(files);
      var job := Job(id, source, total, files);
      objects := objects + Rooted(id, files);
      RepairedRootLists(old(objects), id, files);
      var described := BuildManifest(objects, id, total);
      if described.Error? || Committed(ledger, source) {
        RepairAttemptCrashes(s, source, files, View());
        return Inconsistent;
      }
      CommitAttempt(job, described.value);
      RepairAttemptIsARun(s, source, files, View());
      outcome := Archived(id);
    }

    /** The whole repair: the interval between the raw and the live maximum out of the retained messages, identity check, one
        file per day, and the commit. Whatever is refused before the writes changes nothing. */
    method RepairGap(
        messages: seq<GapRecovery.Message>, snapshot: map<nat, (nat, nat)>, rawMax: Option<int>, liveMax: Option<int>, includeBoundary: bool,
        keys: Ledgers.Keys, conflicts: Ledgers.Conflicts, iso: int -> string, encode: seq<Event> -> string)
      returns (outcome: Outcome, byDate: GapRecovery.ByDate)
      requires GapRecovery.Injective(iso) && forall p :: p in objects ==> objects[p].rows > 0
      modifies this`ledger, this`verified, this`marks, this`objects
      ensures locked ==> outcome == Busy
      ensures !locked && (rawMax.None? || liveMax.None?) ==> outcome == NoMaxima
      ensures !locked && rawMax.Some? && liveMax.Some? && rawMax.value >= liveMax.value ==> outcome == Nothing
      ensures !locked && rawMax.Some? && liveMax.Some? && rawMax.value < liveMax.value ==>
                var ends := map p | p in snapshot :: snapshot[p].1;
                var gap := GapRecovery.Gap(messages, ends, rawMax.value, liveMax.value, includeBoundary);
                if gap == [] then outcome == Unretained
                else if !GapRecovery.IdentitiesHold(gap, keys, conflicts) then outcome == Mismatched
                else
                  var files, id := GapRecovery.FilesOf(byDate, iso, encode), NextId(old(ledger));
                  && GapRecovery.Grouped(gap, byDate) && TotalRows(files) == |gap|
                  && objects == old(objects) + Rooted(id, files)
                  && (outcome == Archived(id) || outcome == Inconsistent)
                  && (outcome == Archived(id) <==>
                        DataUnder(old(objects), id) <= files.Keys
                        && !Committed(old(ledger), Recovered(snapshot, rawMax.value, liveMax.value)))
                  && (outcome == Archived(id) ==>
                        ledger == old(ledger)[id := Batch(Recovered(snapshot, rawMax.value, liveMax.value), |gap|, |gap|, Manifest(1, files, |gap|))])
      ensures outcome in {Busy, NoMaxima, Nothing, Unretained, Mismatched} ==> View() == old(View())
      ensures marks == old(marks) && Steps(old(View()), View())
    {
      hide Rooted, Listed, DataUnder, Steps, Committed, GapRecovery.Gap, GapRecovery.IdentitiesHold, GapRecovery.Grouped, GapRecovery.FilesOf, NextId,
        TotalRows;
      byDate := map[];
      NoStep(View());
      if locked {
        return Busy, byDate;
      }
      if rawMax.None? || liveMax.None? {
        return NoMaxima, byDate;
      }
      if rawMax.value >= liveMax.value {
        return Nothing, byDate;
      }
      var ends := map p | p in snapshot :: snapshot[p].1;
      var recovered := GapRecovery.Recover(messages, ends, rawMax.value, liveMax.value, includeBoundary);
      if recovered == [] {
        return Unretained, byDate;
      }
      var verified := GapRecovery.VerifyIdentities(recovered, keys, conflicts);
      if !verified {
        return Mismatched, byDate;
      }
      var files: Items;
      byDate, files := GapRecovery.DescribeFiles(recovered, iso, encode);
      outcome := Repair(Recovered(snapshot, rawMax.value, liveMax.value), files);
    }

    /** Migration 007. */
    method RunBackfill()
      modifies this`marks
      ensures marks == Upserted(old(marks), Recomputed(ledger))
      ensures Reachable(old(View())) ==> View() == old(View())
    {
      if Reachable(View()) {
        RecomputationAgrees(View());
      }
      marks := Upserted(marks, Recomputed(ledger));
    }
  }

  lemma OverwrittenRootLists(objects: Objects, id: nat, files: Items)
    requires forall rel :: rel in files ==> IsData(rel)
    ensures Listed(WithoutRoot(objects, id) + Rooted(id, files), id) == files
  {
    hide DataUnder, Rooted;
    var after := WithoutRoot(objects, id) + Rooted(id, files);
    forall rel ensures rel in DataUnder(after, id) <==> rel in files {
      DataUnderMembers(after, id, rel);
      RootedMembers(id, files, Path(id, rel));
    }
    forall rel | rel in files ensures Path(id, rel) in after && after[Path(id, rel)] == File(files[rel].digest, files[rel].rows) {
      RootedMembers(id, files, Path(id, rel));
    }
  }

  lemma RepairedListing(objects: Objects, id: nat, files: Items)
    requires forall rel :: rel in files ==> IsData(rel) && files[rel].rows > 0
    requires forall p :: p in objects ==> objects[p].rows > 0
    ensures var listed := Listed(objects + Rooted(id, files), id);
            && listed.Keys == files.Keys + DataUnder(objects, id)
            && (forall rel :: rel in files ==> listed[rel] == files[rel])
            && (forall rel :: rel in listed ==> listed[rel].rows > 0)
  {
    hide DataUnder, Rooted;
    var after := objects + Rooted(id, files);
    forall rel ensures rel in DataUnder(after, id) <==> rel in files || rel in DataUnder(objects, id) {
      DataUnderMembers(after, id, rel);
      DataUnderMembers(objects, id, rel);
      RootedMembers(id, files, Path(id, rel));
    }
    forall p | p in after ensures after[p].rows > 0 {
      RootedMembers(id, files, p);
    }
    forall rel | rel in files ensures Path(id, rel) in after && after[Path(id, rel)] == File(files[rel].digest, files[rel].rows) {
      RootedMembers(id, files, Path(id, rel));
    }
    forall rel | rel in DataUnder(after, id) ensures Path(id, rel) in after {
      DataUnderMembers(after, id, rel);
    }
  }

  /** After a repair's writes the listing has the right total exactly when nothing foreign lies under the root. */
  lemma {:induction false} RepairedRootLists(objects: Objects, id: nat, files: Items)
    requires forall rel :: rel in files ==> IsData(rel) && files[rel].rows > 0
    requires forall p :: p in objects ==> objects[p].rows > 0
    ensures var after := objects + Rooted(id, files);
            && (TotalRows(Listed(after, id)) == TotalRows(files) <==> DataUnder(objects, id) <= files.Keys)
            && (DataUnder(objects, id) <= files.Keys ==> Listed(after, id) == files)
  {
    hide Listed, DataUnder, Rooted, TotalRows;
    var listed := Listed(objects + Rooted(id, files), id);
    RepairedListing(objects, id, files);
    if DataUnder(objects, id) <= files.Keys {
      assert listed == files;
    } else if TotalRows(listed) == TotalRows(files) {
      SameTotalSameFiles(files, listed);
    }
  }

  /** The whole raw attempt, as protocol steps: lock, plan, clear, write every file, describe, commit. */
  lemma {:induction false} RawAttemptIsARun(s: State, frame: Frame, kept: Frame, id: nat, files: Items, t: State)
    requires s.writer.Free? && Contiguous(frame)
    requires Decide(s.ledger, Nexts(s.marks), frame) == Allocate(kept, id)
    requires GoodFiles(files, TotalRows(files)) && TotalRows(files) <= |kept|
    requires var written := s.(objects := WithoutRoot(s.objects, id) + Rooted(id, files));
             t == CommitJob(written, Job(id, Raw(RangesOf(kept)), |kept|, files), Manifest(1, files, TotalRows(files)))
    ensures Steps(s, t)
  {
    hide Steps, Rooted, RangesOf, WithoutRoot, Trimmed, Gaps, ContinuityErrors, NextId, Committed, IdOf, Listed, TotalRows, IsData;
    var job := Job(id, Raw(RangesOf(kept)), |kept|, files);
    var planning := Take(s, TakeRaw(frame));
    var writing := Take(planning, StartRaw(files));
    var written := writing.(objects := writing.objects + Rooted(id, files), writer := Writing(job, {}));
    OverwrittenRootLists(s.objects, id, files);
    var described := Take(written, Describe);
    NoStep(t);
    assert Take(described, Commit) == t;
    StepThen(described, Commit, t);
    StepThen(written, Describe, t);
    WriteAll(writing, files.Keys, t);
    StepThen(planning, StartRaw(files), t);
    StepThen(s, TakeRaw(frame), t);
  }

  lemma {:induction false} RepairAttemptIsARun(s: State, source: Source, files: Items, t: State)
    requires s.writer.Free? && source.Recovered? && files != map[] && GoodFiles(files, TotalRows(files))
    requires var id := NextId(s.ledger);
             && Listed(s.objects + Rooted(id, files), id) == files && !Committed(s.ledger, source)
             && t == CommitJob(s.(objects := s.objects + Rooted(id, files)), Job(id, source, TotalRows(files), files),
                               Manifest(1, files, TotalRows(files)))
    ensures Steps(s, t)
  {
    var id := NextId(s.ledger);
    var job := Job(id, source, TotalRows(files), files);
    var writing := Take(s, StartRepair(source, files));
    var written := writing.(objects := writing.objects + Rooted(id, files), writer := Writing(job, {}));
    var described := Take(written, Describe);
    NoStep(t);
    assert Take(described, Commit) == t;
    StepThen(described, Commit, t);
    StepThen(written, Describe, t);
    WriteAll(writing, files.Keys, t);
    StepThen(s, StartRepair(source, files), t);
  }

  /** A repair that is refused ends like a crash after its writes. */
  lemma {:induction false} RepairAttemptCrashes(s: State, source: Source, files: Items, t: State)
    requires s.writer.Free? && source.Recovered? && files != map[] && GoodFiles(files, TotalRows(files))
    requires t == s.(objects := s.objects + Rooted(NextId(s.ledger), files))
    ensures Steps(s, t)
  {
    var id := NextId(s.ledger);
    var writing := Take(s, StartRepair(source, files));
    var written := writing.(objects := writing.objects + Rooted(id, files), writer := Writing(writing.writer.job, {}));
    NoStep(t);
    assert Take(written, Crash) == t;
    StepThen(written, Crash, t);
    WriteAll(writing, files.Keys, t);
    StepThen(s, StartRepair(source, files), t);
  }
}
