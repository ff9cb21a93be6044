/** What every run of the archive protocol keeps, whatever crashes and replays it contains. */
module ArchiveProof {
  import opened Events
  import opened ArchiveOffsets
  import opened Manifests
  import opened ArchiveProtocol

  /* ---- coverage of Kafka offsets by committed raw batches ---- */

  ghost predicate CoveredBy(ledger: Ledger, id: nat, p: nat, o: nat) {
    id in ledger && ledger[id].source.Raw? && p in ledger[id].source.ranges
    && ledger[id].source.ranges[p].start <= o < ledger[id].source.ranges[p].end
  }

  ghost predicate Covered(ledger: Ledger, p: nat, o: nat) {
    exists id: nat :: CoveredBy(ledger, id, p, o)
  }

  /** The committed ranges of a partition tile [first, next): no gap, no overlap, nothing outside. */
  ghost predicate Tiles(ledger: Ledger, p: nat, first: nat, next: nat) {
    && first < next
    && (forall id: nat, o: nat :: CoveredBy(ledger, id, p, o) ==> first <= o < next)
    && (forall o: nat :: first <= o < next ==> Covered(ledger, p, o))
    && (forall i: nat, j: nat, o: nat :: CoveredBy(ledger, i, p, o) && CoveredBy(ledger, j, p, o) ==> i == j)
  }

  /** Rows archived for a partition by batches with ids below n. */
  ghost function RowsBelow(ledger: Ledger, p: nat, n: nat): nat {
    if n == 0 then 0
    else RowsBelow(ledger, p, n - 1)
         + if n - 1 in ledger && ledger[n - 1].source.Raw? && p in ledger[n - 1].source.ranges
           then ledger[n - 1].source.ranges[p].rows else 0
  }

  ghost predicate RangesSound(ledger: Ledger) {
    forall id, p :: id in ledger && ledger[id].source.Raw? && p in ledger[id].source.ranges ==>
      var r := ledger[id].source.ranges[p]; r.start < r.end && r.rows == r.end - r.start
  }

  ghost predicate MarksSound(ledger: Ledger, marks: map<nat, Mark>) {
    && (forall id, p :: id in ledger && ledger[id].source.Raw? && p in ledger[id].source.ranges ==> p in marks)
    && (forall p :: p in marks ==>
          marks[p].batch in ledger && ledger[marks[p].batch].source.Raw? && p in ledger[marks[p].batch].source.ranges
          && ledger[marks[p].batch].source.ranges[p].end == marks[p].next)
  }

  ghost predicate OffsetsTiled(ledger: Ledger, marks: map<nat, Mark>) {
    forall p :: p in marks ==> exists first ::
      Tiles(ledger, p, first, marks[p].next) && RowsBelow(ledger, p, NextId(ledger)) == marks[p].next - first
  }

  /* ---- archive contents ---- */

  /** Every committed manifest lists exactly the data objects under its root, with matching totals. */
  ghost predicate ArchiveIntact(s: State) {
    && (forall id :: id in s.ledger ==>
          var b := s.ledger[id];
          && b.manifest == Manifest(1, Listed(s.objects, id), b.rowsValid)
          && TotalRows(b.manifest.files) == b.rowsValid
          && id in s.verified && s.verified[id] == b.manifest)
    && (forall id :: id in s.verified ==> id in s.ledger)
    && (forall p :: p in s.objects ==> IsData(p.rel) && s.objects[p].rows > 0)
  }

  /* ---- the lock owner ---- */

  ghost predicate JobSound(s: State, job: Job) {
    && job.id == NextId(s.ledger)
    && GoodFiles(job.files, TotalRows(job.files))
    && (job.source.Raw? ==> RawJobSound(s.marks, job))
    && (job.source.Recovered? ==> job.rowsIn == TotalRows(job.files))
  }

  /** A raw job continues every known partition at its high-water mark, with contiguous ranges. */
  ghost predicate RawJobSound(marks: map<nat, Mark>, job: Job)
    requires job.source.Raw?
  {
    && job.source.ranges != map[]
    && (forall p :: p in job.source.ranges ==>
          var r := job.source.ranges[p];
          r.start < r.end && r.rows == r.end - r.start && (p in marks ==> r.start == marks[p].next))
  }

  /** What the attempt has written so far is there; a raw attempt has nothing else under its root. */
  ghost predicate Written(s: State, job: Job, todo: set<Rel>) {
    && todo <= job.files.Keys
    && (forall rel :: rel in job.files && rel !in todo ==>
          rel in Listed(s.objects, job.id) && Listed(s.objects, job.id)[rel] == job.files[rel])
    && (job.source.Raw? ==> forall rel :: rel in DataUnder(s.objects, job.id) ==> rel in job.files && rel !in todo)
  }

  ghost predicate WriterSound(s: State) {
    match s.writer
    case Free => true
    case Planning(frame) => Contiguous(frame)
    case Writing(job, todo) => JobSound(s, job) && Written(s, job, todo)
    case Described(job, manifest) =>
      JobSound(s, job) && manifest == Manifest(1, job.files, TotalRows(job.files)) && Listed(s.objects, job.id) == job.files
  }

  ghost predicate Inv(s: State) {
    RangesSound(s.ledger) && MarksSound(s.ledger, s.marks) && OffsetsTiled(s.ledger, s.marks) && ArchiveIntact(s) && WriterSound(s)
  }

  /* ---- planning ---- */

  /** The rows of a contiguous partition are as many as its offsets. */
  lemma {:induction false} ContiguousCount(frame: Frame, p: nat)
    requires Contiguous(frame) && p in RangesOf(frame)
    ensures var r := RangesOf(frame)[p]; r.start < r.end && r.rows == r.end - r.start
  {
    RangeEndsAreRecords(frame, p);
    var r := RangesOf(frame)[p];
    Interval(p, r.start, r.end);
    var interval := set o | r.start <= o < r.end :: Position(p, o);
    forall q | q in InPartition(frame, p) ensures q in interval {
      RangeBounds(frame, q);
      assert q == Position(p, q.offset);
    }
    assert InPartition(frame, p) == interval;
  }

  lemma {:induction false} Interval(p: nat, a: nat, b: nat)
    requires a <= b
    ensures |set o | a <= o < b :: Position(p, o)| == b - a
    decreases b - a
  {
    var whole := set o | a <= o < b :: Position(p, o);
    if a == b {
      assert whole == {};
    } else {
      Interval(p, a + 1, b);
      var rest := set o | a + 1 <= o < b :: Position(p, o);
      assert whole == {Position(p, a)} + rest;
      assert Position(p, a) !in rest;
    }
  }

  /** With sound marks a contiguous delivery is trimmed, skipped or refused as a gap, never a discontinuity,
      and the fingerprint of an earlier commit is never met again: the high-water marks catch it first. */
  lemma {:induction false} DecisionIsClean(s: State, frame: Frame)
    requires Inv(s) && Contiguous(frame)
    ensures var plan := Decide(s.ledger, Nexts(s.marks), frame); !plan.Discontinuous? && !plan.AlreadyCommitted?
  {
    var committed := Nexts(s.marks);
    if frame != {} && Gaps(RangesOf(frame), committed) == map[] && Trimmed(frame, committed) != {} {
      ContiguousTrimContinues(frame, committed);
      NeverSeenBefore(s, frame);
    }
  }

  lemma {:induction false} NeverSeenBefore(s: State, frame: Frame)
    requires Inv(s) && Trimmed(frame, Nexts(s.marks)) != {}
    ensures !Committed(s.ledger, Raw(RangesOf(Trimmed(frame, Nexts(s.marks)))))
  {
    var trimmed := Trimmed(frame, Nexts(s.marks));
    var r :| r in trimmed;
    RangeBounds(trimmed, r);
    var p := r.partition;
    RangeEndsAreRecords(trimmed, p);
    forall id | id in s.ledger ensures s.ledger[id].source != Raw(RangesOf(trimmed)) {
      if s.ledger[id].source.Raw? && p in s.ledger[id].source.ranges {
        var range := s.ledger[id].source.ranges[p];
        assert p in s.marks;
        var first :| Tiles(s.ledger, p, first, s.marks[p].next);
        assert CoveredBy(s.ledger, id, p, range.start);
        TrimmedIsNew(frame, Nexts(s.marks), Position(p, RangesOf(trimmed)[p].start));
      }
    }
  }

  /** Every record of some marked partition of the delivery lies above its high-water mark. */
  ghost predicate SkipsAhead(frame: Frame, marks: map<nat, Mark>) {
    exists r :: r in frame && r.partition in marks
                && forall q :: q in frame && q.partition == r.partition ==> q.offset > marks[r.partition].next
  }

  /** The record has no mark yet, or lies at or above it. */
  predicate IsNew(r: Position, marks: map<nat, Mark>) {
    r.partition in marks ==> r.offset >= marks[r.partition].next
  }

  lemma {:induction false} GapsAreSkips(frame: Frame, marks: map<nat, Mark>)
    ensures Gaps(RangesOf(frame), Nexts(marks)) != map[] <==> SkipsAhead(frame, marks)
  {
    var gaps := Gaps(RangesOf(frame), Nexts(marks));
    if gaps != map[] {
      var p :| p in gaps.Keys;
      RangeEndsAreRecords(frame, p);
      var r := Position(p, RangesOf(frame)[p].start);
      forall q | q in frame && q.partition == p ensures q.offset > marks[p].next {
        RangeBounds(frame, q);
      }
      assert r in frame && r.partition in marks;
    }
    if SkipsAhead(frame, marks) {
      var r :| r in frame && r.partition in marks && forall q :: q in frame && q.partition == r.partition ==> q.offset > marks[r.partition].next;
      RangeBounds(frame, r);
      RangeEndsAreRecords(frame, r.partition);
      assert Position(r.partition, RangesOf(frame)[r.partition].start) in frame;
      assert r.partition in gaps;
    }
  }

  lemma {:induction false} TrimmedAreNew(frame: Frame, marks: map<nat, Mark>)
    requires !SkipsAhead(frame, marks)
    ensures Trimmed(frame, Nexts(marks)) == set r | r in frame && IsNew(r, marks)
  {
    GapsAreSkips(frame, marks);
    assert Gaps(RangesOf(frame), Nexts(marks)) == map[];
    forall r ensures r in Trimmed(frame, Nexts(marks)) <==> r in frame && IsNew(r, marks) {
      if r in frame {
        RangeBounds(frame, r);
      }
      hide RangesOf;
      SurvivesTrim(frame, RangesOf(frame), marks, r);
    }
  }

  lemma SurvivesTrim(frame: Frame, ranges: Ranges, marks: map<nat, Mark>, r: Position)
    requires Gaps(ranges, Nexts(marks)) == map[]
    requires r in frame ==> r.partition in ranges && ranges[r.partition].start <= r.offset
    ensures r in Trim(frame, Thresholds(ranges, Nexts(marks))) <==> r in frame && IsNew(r, marks)
  {
    if r in frame && r.partition in marks {
      assert r.partition !in Gaps(ranges, Nexts(marks));
    }
  }

  /** What becomes of a delivery, from its records and the marks alone: refused exactly if it skips ahead in some marked
      partition; otherwise archived exactly if it has a new record, and then exactly its new records are. */
  lemma {:induction false} DecisionExactly(s: State, frame: Frame)
    requires Inv(s) && Unbroken(frame)
    ensures var plan := Decide(s.ledger, Nexts(s.marks), frame);
            && (plan.ForwardGap? <==> SkipsAhead(frame, s.marks))
            && (plan.Allocate? <==> !SkipsAhead(frame, s.marks) && exists r :: r in frame && IsNew(r, s.marks))
            && (plan.NothingToDo? <==> !SkipsAhead(frame, s.marks) && forall r :: r in frame ==> !IsNew(r, s.marks))
            && (plan.Allocate? ==> plan.frame == set r | r in frame && IsNew(r, s.marks))
  {
    hide *;
    UnbrokenIsContiguous(frame);
    DecisionIsClean(s, frame);
    GapsAreSkips(frame, s.marks);
    if !SkipsAhead(frame, s.marks) {
      TrimmedAreNew(frame, s.marks);
    }
    var kept := set r | r in frame && IsNew(r, s.marks);
    PlanFollows(s, frame, kept);
    if kept != {} {
      var r :| r in kept;
    }
    forall r | r in frame && IsNew(r, s.marks) ensures r in kept {}
  }

  lemma PlanFollows(s: State, frame: Frame, kept: Frame)
    requires !Decide(s.ledger, Nexts(s.marks), frame).Discontinuous? && !Decide(s.ledger, Nexts(s.marks), frame).AlreadyCommitted?
    requires Gaps(RangesOf(frame), Nexts(s.marks)) != map[] <==> SkipsAhead(frame, s.marks)
    requires !SkipsAhead(frame, s.marks) ==> Trimmed(frame, Nexts(s.marks)) == kept
    requires kept <= frame
    ensures var plan := Decide(s.ledger, Nexts(s.marks), frame);
            && (plan.ForwardGap? <==> SkipsAhead(frame, s.marks))
            && (plan.Allocate? <==> !SkipsAhead(frame, s.marks) && kept != {})
            && (plan.NothingToDo? <==> !SkipsAhead(frame, s.marks) && kept == {})
            && (plan.Allocate? ==> plan.frame == kept)
  {
    hide RangesOf, Trimmed, Gaps, ContinuityErrors, Committed, IdOf, NextId;
  }

  /** A fully replayed batch commits nothing. */
  lemma {:induction false} ReplayCommitsNothing(ledger: Ledger, committed: Marks, frame: Frame)
    requires forall r :: r in frame ==> r.partition in committed && r.offset < committed[r.partition]
    ensures Decide(ledger, committed, frame).NothingToDo?
  {
    hide RangesOf, Trimmed, Committed, IdOf, NextId, ContinuityErrors;
    FullyReplayed(frame, committed);
    forall p | p in RangesOf(frame) && p in committed ensures p !in Gaps(RangesOf(frame), committed) {
      RangeEndsAreRecords(frame, p);
    }
    assert Gaps(RangesOf(frame), committed) == map[];
  }

  lemma {:induction false} PlannedJobIsSound(s: State, frame: Frame)
    requires Inv(s) && Contiguous(frame)
    requires Decide(s.ledger, Nexts(s.marks), frame).Allocate?
    ensures var plan := Decide(s.ledger, Nexts(s.marks), frame);
            && plan.id == NextId(s.ledger)
            && RawJobSound(s.marks, Job(plan.id, Raw(RangesOf(plan.frame)), |plan.frame|, map[]))
  {
    var committed := Nexts(s.marks);
    var trimmed := Trimmed(frame, committed);
    var r :| r in trimmed;
    RangeBounds(trimmed, r);
    TrimKeepsContiguity(frame, committed);
    ContiguousTrimContinues(frame, committed);
    forall p | p in RangesOf(trimmed)
      ensures var r := RangesOf(trimmed)[p];
              r.start < r.end && r.rows == r.end - r.start && (p in s.marks ==> r.start == s.marks[p].next)
    {
      ContiguousCount(trimmed, p);
      assert p !in ContinuityErrors(RangesOf(trimmed), committed);
    }
  }

  /* ---- the committing transaction ---- */

  lemma NextIdAfter(ledger: Ledger, b: Batch)
    ensures NextId(ledger[NextId(ledger) := b]) == NextId(ledger) + 1
  {
    var after := ledger[NextId(ledger) := b];
    assert IsMaxId(after.Keys, NextId(ledger));
    assert after.Keys != {};
  }

  lemma {:induction false} RowsBelowIsLocal(a: Ledger, b: Ledger, p: nat, n: nat)
    requires forall id :: id < n ==> (id in a <==> id in b) && (id in a ==> a[id] == b[id])
    ensures RowsBelow(a, p, n) == RowsBelow(b, p, n)
  {
    if n > 0 {
      RowsBelowIsLocal(a, b, p, n - 1);
    }
  }

  /** Nothing is archived yet for a partition without a mark. */
  lemma {:induction false} NoRowsWithoutMark(ledger: Ledger, marks: map<nat, Mark>, p: nat, n: nat)
    requires MarksSound(ledger, marks) && p !in marks
    ensures RowsBelow(ledger, p, n) == 0
  {
    if n > 0 {
      NoRowsWithoutMark(ledger, marks, p, n - 1);
    }
  }

  /** A committed raw range extends the tiling of its partition by exactly its own offsets. */
  lemma {:induction false} RangeExtendsTiling(ledger: Ledger, marks: map<nat, Mark>, b: Batch, p: nat)
    requires RangesSound(ledger) && MarksSound(ledger, marks) && OffsetsTiled(ledger, marks)
    requires b.source.Raw? && p in b.source.ranges
    requires RawJobSound(marks, Job(NextId(ledger), b.source, 0, map[]))
    ensures var after := ledger[NextId(ledger) := b];
            exists first :: Tiles(after, p, first, b.source.ranges[p].end)
                            && RowsBelow(after, p, NextId(after)) == b.source.ranges[p].end - first
  {
    var id, r := NextId(ledger), b.source.ranges[p];
    var after := ledger[id := b];
    NextIdAfter(ledger, b);
    RowsBelowIsLocal(ledger, after, p, id);
    if p in marks {
      var first :| Tiles(ledger, p, first, marks[p].next) && RowsBelow(ledger, p, id) == marks[p].next - first;
      ExtendTiles(ledger, after, b, p, first, marks[p].next);
    } else {
      NoRowsWithoutMark(ledger, marks, p, id);
      StartTiles(ledger, after, marks, b, p);
    }
  }

  lemma {:induction false} ExtendTiles(ledger: Ledger, after: Ledger, b: Batch, p: nat, first: nat, next: nat)
    requires Tiles(ledger, p, first, next) && after == ledger[NextId(ledger) := b]
    requires b.source.Raw? && p in b.source.ranges && b.source.ranges[p].start == next < b.source.ranges[p].end
    ensures Tiles(after, p, first, b.source.ranges[p].end)
  {
    var id, end := NextId(ledger), b.source.ranges[p].end;
    forall i: nat, o: nat ensures CoveredBy(after, i, p, o) <==> (CoveredBy(ledger, i, p, o) || (i == id && next <= o < end)) {}
    forall o: nat | first <= o < end ensures Covered(after, p, o) {
      if o < next {
        assert Covered(ledger, p, o);
        var i: nat :| CoveredBy(ledger, i, p, o);
        assert CoveredBy(after, i, p, o);
      } else {
        assert CoveredBy(after, id, p, o);
      }
    }
  }

  lemma {:induction false} StartTiles(ledger: Ledger, after: Ledger, marks: map<nat, Mark>, b: Batch, p: nat)
    requires MarksSound(ledger, marks) && p !in marks && after == ledger[NextId(ledger) := b]
    requires b.source.Raw? && p in b.source.ranges && b.source.ranges[p].start < b.source.ranges[p].end
    ensures Tiles(after, p, b.source.ranges[p].start, b.source.ranges[p].end)
  {
    var id, r := NextId(ledger), b.source.ranges[p];
    forall i: nat, o: nat ensures CoveredBy(after, i, p, o) <==> i == id && r.start <= o < r.end {}
    forall o: nat | r.start <= o < r.end ensures Covered(after, p, o) {
      assert CoveredBy(after, id, p, o);
    }
  }

  /** A batch that does not touch a partition leaves its tiling alone. */
  lemma {:induction false} OtherTilingStays(ledger: Ledger, b: Batch, p: nat, first: nat, next: nat)
    requires Tiles(ledger, p, first, next) && RowsBelow(ledger, p, NextId(ledger)) == next - first
    requires b.source.Raw? ==> p !in b.source.ranges
    ensures var after := ledger[NextId(ledger) := b];
            Tiles(after, p, first, next) && RowsBelow(after, p, NextId(after)) == next - first
  {
    var id := NextId(ledger);
    var after := ledger[id := b];
    NextIdAfter(ledger, b);
    RowsBelowIsLocal(ledger, after, p, id);
    forall i: nat, o: nat ensures CoveredBy(after, i, p, o) <==> CoveredBy(ledger, i, p, o) {}
    forall o: nat | first <= o < next ensures Covered(after, p, o) {
      assert Covered(ledger, p, o);
      var i: nat :| CoveredBy(ledger, i, p, o);
      assert CoveredBy(after, i, p, o);
    }
  }

  lemma {:induction false} CommitKeepsOffsets(s: State, job: Job, manifest: Manifest)
    requires RangesSound(s.ledger) && MarksSound(s.ledger, s.marks) && OffsetsTiled(s.ledger, s.marks)
    requires job.id == NextId(s.ledger) && (job.source.Raw? ==> RawJobSound(s.marks, job))
    ensures var after := CommitJob(s, job, manifest);
            RangesSound(after.ledger) && MarksSound(after.ledger, after.marks) && OffsetsTiled(after.ledger, after.marks)
  {
    CommitKeepsRanges(s, job, manifest);
    CommitKeepsTiling(s, job, manifest);
  }

  lemma CommitKeepsRanges(s: State, job: Job, manifest: Manifest)
    requires RangesSound(s.ledger) && MarksSound(s.ledger, s.marks)
    requires job.id == NextId(s.ledger) && (job.source.Raw? ==> RawJobSound(s.marks, job))
    ensures var after := CommitJob(s, job, manifest); RangesSound(after.ledger) && MarksSound(after.ledger, after.marks)
  {
    CommitKeepsRangeLengths(s, job, manifest);
    hide RangesSound;
  }

  lemma CommitKeepsRangeLengths(s: State, job: Job, manifest: Manifest)
    requires RangesSound(s.ledger) && (job.source.Raw? ==> RawJobSound(s.marks, job))
    ensures RangesSound(CommitJob(s, job, manifest).ledger)
  {}

  lemma {:induction false} CommitKeepsTiling(s: State, job: Job, manifest: Manifest)
    requires RangesSound(s.ledger) && MarksSound(s.ledger, s.marks) && OffsetsTiled(s.ledger, s.marks)
    requires job.id == NextId(s.ledger) && (job.source.Raw? ==> RawJobSound(s.marks, job))
    ensures var after := CommitJob(s, job, manifest); OffsetsTiled(after.ledger, after.marks)
  {
    hide Tiles, RangesSound, MarksSound, NextId, RowsBelow;
    var after := CommitJob(s, job, manifest);
    var b := after.ledger[job.id];
    forall p | p in after.marks
      ensures exists first :: Tiles(after.ledger, p, first, after.marks[p].next)
                              && RowsBelow(after.ledger, p, NextId(after.ledger)) == after.marks[p].next - first
    {
      if job.source.Raw? && p in job.source.ranges {
        RangeExtendsTiling(s.ledger, s.marks, b, p);
      } else {
        assert p in s.marks;
        var first :| Tiles(s.ledger, p, first, s.marks[p].next) && RowsBelow(s.ledger, p, NextId(s.ledger)) == s.marks[p].next - first;
        OtherTilingStays(s.ledger, b, p, first, s.marks[p].next);
      }
    }
  }

  /* ---- every step ---- */

  lemma {:induction false} DescribeIsExact(s: State, job: Job)
    requires Inv(s) && s.writer == Writing(job, {})
    requires TotalRows(Listed(s.objects, job.id)) == TotalRows(job.files)
    ensures Listed(s.objects, job.id) == job.files
  {
    SameTotalSameFiles(job.files, Listed(s.objects, job.id));
  }

  lemma {:induction false} StepKeepsOffsets(s: State, step: Step)
    requires Inv(s) && Enabled(s, step)
    ensures var t := Take(s, step);
            RangesSound(t.ledger) && MarksSound(t.ledger, t.marks) && OffsetsTiled(t.ledger, t.marks)
  {
    if step.Commit? {
      CommitKeepsOffsets(s, s.writer.job, s.writer.manifest);
    }
  }

  lemma {:induction false} StepKeepsArchive(s: State, step: Step)
    requires ArchiveIntact(s) && WriterSound(s) && Enabled(s, step)
    ensures ArchiveIntact(Take(s, step))
  {
    RootsStay(s, step);
    ObjectsStayGood(s, step);
    var t := Take(s, step);
    if step.Commit? {
      CommitKeepsArchive(s);
    }
  }

  lemma CommitKeepsArchive(s: State)
    requires ArchiveIntact(s) && WriterSound(s) && Enabled(s, Commit)
    ensures ArchiveIntact(Take(s, Commit))
  {
    hide Listed, TotalRows, NextId, RawJobSound;
  }

  lemma ObjectsStayGood(s: State, step: Step)
    requires ArchiveIntact(s) && WriterSound(s) && Enabled(s, step)
    ensures forall p :: p in Take(s, step).objects ==> IsData(p.rel) && Take(s, step).objects[p].rows > 0
  {
    hide Listed, TotalRows, NextId, RawJobSound, Decide, IsData, RangesOf;
  }

  /** Where a step may write: below the root of a batch id that is not committed. */
  lemma WritesAreOutside(s: State, step: Step, p: Path)
    requires WriterSound(s) && Enabled(s, step) && p.batch in s.ledger
    ensures (p in Take(s, step).objects <==> p in s.objects) && (p in s.objects ==> Take(s, step).objects[p] == s.objects[p])
  {
    hide Listed, TotalRows, RawJobSound, RangesOf, Trimmed, Gaps, ContinuityErrors, Committed, IdOf, Written, GoodFiles;
  }

  /** No step writes under the root of a committed batch. */
  lemma {:induction false} RootsStay(s: State, step: Step)
    requires WriterSound(s) && Enabled(s, step)
    ensures forall p: Path :: p.batch in s.ledger ==>
              (p in Take(s, step).objects <==> p in s.objects) && (p in s.objects ==> Take(s, step).objects[p] == s.objects[p])
    ensures forall id :: id in s.ledger ==> Listed(Take(s, step).objects, id) == Listed(s.objects, id)
  {
    hide Listed, WriterSound, Take, Enabled;
    var t := Take(s, step);
    forall p: Path | p.batch in s.ledger
      ensures (p in t.objects <==> p in s.objects) && (p in s.objects ==> t.objects[p] == s.objects[p])
    {
      WritesAreOutside(s, step, p);
    }
    forall id | id in s.ledger ensures Listed(t.objects, id) == Listed(s.objects, id) {
      SameRootSameListing(s.objects, t.objects, id);
    }
  }

  lemma SameRootSameListing(a: Objects, b: Objects, id: nat)
    requires forall p: Path :: p.batch == id ==> (p in a <==> p in b) && (p in a ==> a[p] == b[p])
    ensures Listed(a, id) == Listed(b, id)
  {
    assert forall rel :: rel in DataUnder(a, id) <==> rel in DataUnder(b, id);
  }

  lemma {:induction false} StepKeepsWriter(s: State, step: Step)
    requires Inv(s) && Enabled(s, step)
    ensures WriterSound(Take(s, step))
  {
    match step {
      case StartRaw(files) =>
        PlannedJobIsSound(s, s.writer.frame);
        assert DataUnder(WithoutRoot(s.objects, NextId(s.ledger)), NextId(s.ledger)) == {};
      case WriteFile(rel) =>
        WriteKeepsWritten(s, rel);
      case Describe =>
        DescribeIsExact(s, s.writer.job);
      case _ =>
    }
  }

  lemma {:induction false} WriteKeepsWritten(s: State, rel: Rel)
    requires WriterSound(s) && s.writer.Writing? && rel in s.writer.todo && rel in s.writer.job.files
    ensures var t := Take(s, WriteFile(rel)); Written(t, s.writer.job, t.writer.todo)
  {
    var job, todo := s.writer.job, s.writer.todo;
    var file := File(job.files[rel].digest, job.files[rel].rows);
    var t := Take(s, WriteFile(rel));
    assert t.objects == s.objects[Path(job.id, rel) := file] && t.writer.todo == todo - {rel};
    assert GoodFiles(job.files, TotalRows(job.files)) && Written(s, job, todo) && IsData(rel);
    hide *;
    OneMoreListed(s.objects, job.id, rel, file);
    WrittenGrows(s, t, job, todo, rel, file);
  }

  lemma OneMoreListed(objects: Objects, id: nat, rel: Rel, file: File)
    requires IsData(rel)
    ensures var after := objects[Path(id, rel) := file];
            && DataUnder(after, id) == DataUnder(objects, id) + {rel}
            && Listed(after, id) == Listed(objects, id)[rel := Item(file.content, file.rows)]
  {
    var after := objects[Path(id, rel) := file];
    hide IsData;
    forall r ensures r in DataUnder(after, id) <==> r in DataUnder(objects, id) || r == rel {
      DataUnderMembers(after, id, r);
      DataUnderMembers(objects, id, r);
    }
    hide DataUnder;
  }

  lemma WrittenGrows(s: State, t: State, job: Job, todo: set<Rel>, rel: Rel, file: File)
    requires Written(s, job, todo) && rel in todo && rel in job.files && file == File(job.files[rel].digest, job.files[rel].rows)
    requires DataUnder(t.objects, job.id) == DataUnder(s.objects, job.id) + {rel}
    requires Listed(t.objects, job.id) == Listed(s.objects, job.id)[rel := Item(file.content, file.rows)]
    ensures Written(t, job, todo - {rel})
  {
    hide DataUnder, Listed;
  }

  lemma {:induction false} StepKeepsInv(s: State, step: Step)
    requires Inv(s) && Enabled(s, step)
    ensures Inv(Take(s, step))
  {
    StepKeepsOffsets(s, step);
    StepKeepsArchive(s, step);
    StepKeepsWriter(s, step);
  }

  /** Every run keeps the tiling, the marks, the manifests and the archive intact. */
  lemma {:induction false} RunKeepsInv(s: State, steps: seq<Step>)
    requires Inv(s) && CanRun(s, steps)
    ensures Inv(RunSteps(s, steps))
    decreases |steps|
  {
    if steps != [] {
      StepKeepsInv(s, steps[0]);
      RunKeepsInv(Take(s, steps[0]), steps[1..]);
    }
  }

  lemma StartIsSound()
    ensures Inv(START)
  {}

  /** Committed batches, their objects and the marks are only ever extended. */
  ghost predicate Extends(s: State, t: State) {
    && (forall id :: id in s.ledger ==> id in t.ledger && t.ledger[id] == s.ledger[id])
    && (forall p :: p in s.marks ==> p in t.marks && s.marks[p].next <= t.marks[p].next)
    && (forall p: Path :: p.batch in s.ledger ==> (p in t.objects <==> p in s.objects) && (p in s.objects ==> t.objects[p] == s.objects[p]))
  }

  lemma {:induction false} StepExtends(s: State, step: Step)
    requires Inv(s) && Enabled(s, step)
    ensures Extends(s, Take(s, step))
  {
    RootsStay(s, step);
    LedgerExtends(s, step);
  }

  lemma LedgerExtends(s: State, step: Step)
    requires WriterSound(s) && RangesSound(s.ledger) && Enabled(s, step)
    ensures var t := Take(s, step);
            && (forall id :: id in s.ledger ==> id in t.ledger && t.ledger[id] == s.ledger[id])
            && (forall p :: p in s.marks ==> p in t.marks && s.marks[p].next <= t.marks[p].next)
  {
    hide Listed, TotalRows, Decide, Written, GoodFiles, WithoutRoot;
    if step.Commit? {
      assert s.writer.job.id == NextId(s.ledger);
    }
  }

  /** High-water marks never move back, committed rows never change, committed objects are immutable. */
  lemma {:induction false} RunExtends(s: State, steps: seq<Step>)
    requires Inv(s) && CanRun(s, steps)
    ensures Extends(s, RunSteps(s, steps))
    decreases |steps|
  {
    if steps != [] {
      StepKeepsInv(s, steps[0]);
      StepExtends(s, steps[0]);
      RunExtends(Take(s, steps[0]), steps[1..]);
    }
  }

  /* ---- what the invariant says about every reachable state ---- */

  /** Reachable states: any run of enabled steps from the empty archive. */
  ghost predicate Reachable(s: State) {
    exists steps :: CanRun(START, steps) && RunSteps(START, steps) == s
  }

  lemma {:induction false} ReachableIsSound(s: State)
    requires Reachable(s)
    ensures Inv(s)
  {
    var steps :| CanRun(START, steps) && RunSteps(START, steps) == s;
    StartIsSound();
    RunKeepsInv(START, steps);
  }

  /** Exactly-once coverage: an offset lies in exactly one committed raw range if it is between the first archived
      offset and the high-water mark of its partition, and in none otherwise; the row counts add up to the length. */
  lemma {:induction false} ExactlyOnceCoverage(s: State, p: nat)
    requires Reachable(s) && p in s.marks
    ensures exists first ::
              && Tiles(s.ledger, p, first, s.marks[p].next)
              && RowsBelow(s.ledger, p, NextId(s.ledger)) == s.marks[p].next - first
  {
    ReachableIsSound(s);
  }

  /** From any reachable state a contiguous delivery is archived, skipped as replayed or refused as a forward gap. */
  lemma {:induction false} DeliveriesNeverCollide(s: State, frame: Frame)
    requires Reachable(s) && Contiguous(frame)
    ensures var plan := Decide(s.ledger, Nexts(s.marks), frame); plan.NothingToDo? || plan.ForwardGap? || plan.Allocate?
  {
    ReachableIsSound(s);
    DecisionIsClean(s, frame);
  }

  /* ---- committed files in every later state ---- */

  function RowOf(s: State, id: nat): BatchRow
    requires id in s.ledger
  {
    BatchRow(id, s.ledger[id].rowsValid, Some(s.ledger[id].manifest))
  }

  /** Every committed batch passes verification for every day in every later state, and each of its
      files is returned for exactly one day. */
  lemma {:induction false} CommittedFilesVerify(s: State, steps: seq<Step>, id: nat, day: string)
    requires Reachable(s) && CanRun(s, steps) && id in s.ledger
    ensures var t := RunSteps(s, steps);
            id in t.ledger && RowOf(t, id) == RowOf(s, id) && Passes(t.objects, RowOf(s, id), day)
    ensures forall rel :: rel in s.ledger[id].manifest.files ==>
              exists d :: OfDay(rel, d) && forall e :: OfDay(rel, e) ==> e == d
  {
    ReachableIsSound(s);
    RunKeepsInv(s, steps);
    RunExtends(s, steps);
    var t := RunSteps(s, steps);
    assert t.ledger[id] == s.ledger[id];
    forall rel | rel in s.ledger[id].manifest.files
      ensures !Unsafe(rel) && rel.parts != [] && Intact(t.objects, RowOf(s, id), rel)
      ensures exists d :: OfDay(rel, d) && forall e :: OfDay(rel, e) ==> e == d
    {
      assert rel in Listed(t.objects, id);
      assert Path(id, rel) in t.objects && IsData(rel);
      DataBelongsToOneDay(rel);
    }
  }

  /** A committed manifest holds the files of its own attempt and nothing left behind by a crashed one. */
  lemma {:induction false} NoLeftoversCommitted(s: State)
    requires Reachable(s) && Enabled(s, Commit)
    ensures var t := Take(s, Commit);
            t.ledger[s.writer.job.id].manifest.files == s.writer.job.files == Listed(t.objects, s.writer.job.id)
  {
    ReachableIsSound(s);
  }
}
