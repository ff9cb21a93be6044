/**
 Offset bookkeeping of the raw archive writer: the source identity of a micro-batch,
 continuity against the high-water marks, and the trimming of replayed prefixes.
 */
module ArchiveOffsets {
  import opened Events

  /** One partition of a micro-batch: first offset, one past the last, and the row count. */
  datatype Range = Range(start: nat, end: nat, rows: nat)

  type Ranges = map<nat, Range>

  /** Next expected offset per partition. */
  type Marks = map<nat, nat>

  datatype Gap = Gap(expected: nat, actual: nat)

  type Frame = set<Position>

  /* ---- grouping a frame by partition ---- */

  function PartitionsOf(frame: Frame): set<nat> {
    set r | r in frame :: r.partition
  }

  function InPartition(frame: Frame, p: nat): Frame {
    set r | r in frame && r.partition == p
  }

  predicate IsFirst(records: Frame, r: Position) {
    r in records && forall q :: q in records ==> r.offset <= q.offset
  }

  predicate IsLast(records: Frame, r: Position) {
    r in records && forall q :: q in records ==> q.offset <= r.offset
  }

  lemma {:induction false} ExtremesExist(records: Frame)
    requires records != {}
    ensures (exists r :: IsFirst(records, r)) && (exists r :: IsLast(records, r))
  {
    var x :| x in records;
    var rest := records - {x};
    forall r | r in records ensures r == x || r in rest {}
    if rest == {} {
      assert IsFirst(records, x) && IsLast(records, x);
    } else {
      ExtremesExist(rest);
      var a :| IsFirst(rest, a);
      var b :| IsLast(rest, b);
      assert IsFirst(records, if x.offset < a.offset then x else a);
      assert IsLast(records, if x.offset > b.offset then x else b);
    }
  }

  predicate OnePartition(records: Frame) {
    forall q, r :: q in records && r in records ==> q.partition == r.partition
  }

  function First(records: Frame): (r: Position)
    requires records != {} && OnePartition(records)
    ensures IsFirst(records, r)
  {
    ExtremesExist(records);
    var r :| r in records && IsFirst(records, r);
    r
  }

  function Last(records: Frame): (r: Position)
    requires records != {} && OnePartition(records)
    ensures IsLast(records, r)
  {
    ExtremesExist(records);
    var r :| r in records && IsLast(records, r);
    r
  }

  /** `groupBy("partition").agg(min, max + 1, count)` */
  function RangesOf(frame: Frame): (ranges: Ranges)
    ensures ranges.Keys == PartitionsOf(frame)
  {
    assert forall p :: p in PartitionsOf(frame) ==> InPartition(frame, p) != {} by {
      forall p | p in PartitionsOf(frame) ensures InPartition(frame, p) != {} {
        var r :| r in frame && r.partition == p;
        assert r in InPartition(frame, p);
      }
    }
    map p | p in PartitionsOf(frame) ::
      var records := InPartition(frame, p);
      Range(First(records).offset, Last(records).offset + 1, |records|)
  }

  lemma RangeBounds(frame: Frame, r: Position)
    requires r in frame
    ensures r.partition in RangesOf(frame)
    ensures RangesOf(frame)[r.partition].start <= r.offset < RangesOf(frame)[r.partition].end
    ensures RangesOf(frame)[r.partition].rows == |set q | q in frame && q.partition == r.partition|
  {
    assert r in InPartition(frame, r.partition);
    assert InPartition(frame, r.partition) == set q | q in frame && q.partition == r.partition;
  }

  lemma RangeEndsAreRecords(frame: Frame, p: nat)
    requires p in RangesOf(frame)
    ensures Position(p, RangesOf(frame)[p].start) in frame
    ensures RangesOf(frame)[p].start < RangesOf(frame)[p].end && Position(p, RangesOf(frame)[p].end - 1) in frame
  {
    var records := InPartition(frame, p);
    var r :| r in frame && r.partition == p;
    assert r in records;
    assert First(records) == Position(p, RangesOf(frame)[p].start);
    assert Last(records) == Position(p, RangesOf(frame)[p].end - 1);
  }

  /** Spark hands over every offset between the first and the last of a partition. */
  ghost predicate Contiguous(frame: Frame) {
    forall p, o :: p in RangesOf(frame) && RangesOf(frame)[p].start <= o < RangesOf(frame)[p].end ==> Position(p, o) in frame
  }

  /** The same from the records alone: between two records of a partition none is missing. */
  ghost predicate Unbroken(frame: Frame) {
    forall a, b, o: nat :: a in frame && b in frame && a.partition == b.partition && a.offset <= o <= b.offset
      ==> Position(a.partition, o) in frame
  }

  lemma {:induction false} UnbrokenIsContiguous(frame: Frame)
    ensures Unbroken(frame) <==> Contiguous(frame)
  {
    if Unbroken(frame) {
      forall p, o | p in RangesOf(frame) && RangesOf(frame)[p].start <= o < RangesOf(frame)[p].end ensures Position(p, o) in frame {
        RangeEndsAreRecords(frame, p);
        var a, b := Position(p, RangesOf(frame)[p].start), Position(p, RangesOf(frame)[p].end - 1);
        assert a in frame && b in frame;
      }
    }
    if Contiguous(frame) {
      forall a, b, o: nat | a in frame && b in frame && a.partition == b.partition && a.offset <= o <= b.offset
        ensures Position(a.partition, o) in frame
      {
        RangeBounds(frame, a);
        RangeBounds(frame, b);
      }
    }
  }

  /* ---- source identity ---- */

  datatype PartitionRow = PartitionRow(partition: nat, range: Range)

  /** The canonical offsets document of `source_identity`; its digest is injective. */
  function SourceIdentity(rows: seq<PartitionRow>): Ranges {
    if rows == [] then map[]
    else SourceIdentity(rows[..|rows| - 1])[rows[|rows| - 1].partition := rows[|rows| - 1].range]
  }

  predicate OneRowPerPartition(rows: seq<PartitionRow>) {
    forall i, j :: 0 <= i < j < |rows| ==> rows[i].partition != rows[j].partition
  }

  lemma {:induction false} IdentityHoldsRows(rows: seq<PartitionRow>)
    requires OneRowPerPartition(rows)
    ensures forall p, r :: (p in SourceIdentity(rows) && SourceIdentity(rows)[p] == r) <==> PartitionRow(p, r) in rows
  {
    if rows != [] {
      var most, last := rows[..|rows| - 1], rows[|rows| - 1];
      assert rows == most + [last];
      IdentityHoldsRows(most);
      forall i | 0 <= i < |most| ensures most[i].partition != last.partition {
        assert rows[i] == most[i];
      }
    }
  }

  /** The identity does not depend on the order in which Spark returns the partitions. */
  lemma {:induction false} IdentityIgnoresOrder(a: seq<PartitionRow>, b: seq<PartitionRow>)
    requires OneRowPerPartition(a) && OneRowPerPartition(b)
    requires forall r :: r in a <==> r in b
    ensures SourceIdentity(a) == SourceIdentity(b)
  {
    IdentityHoldsRows(a);
    IdentityHoldsRows(b);
    forall p | p in SourceIdentity(a) ensures p in SourceIdentity(b) && SourceIdentity(b)[p] == SourceIdentity(a)[p] {
      assert PartitionRow(p, SourceIdentity(a)[p]) in a;
    }
    forall p | p in SourceIdentity(b) ensures p in SourceIdentity(a) {
      assert PartitionRow(p, SourceIdentity(b)[p]) in b;
    }
  }

  /* ---- continuity and replay ---- */

  function ContinuityErrors(ranges: Ranges, committed: Marks): map<nat, Gap> {
    map p | p in ranges && p in committed && ranges[p].start != committed[p] :: Gap(committed[p], ranges[p].start)
  }

  function Thresholds(ranges: Ranges, committed: Marks): Marks {
    map p | p in ranges && p in committed && ranges[p].start < committed[p] :: committed[p]
  }

  function Gaps(ranges: Ranges, committed: Marks): map<nat, Gap> {
    map p | p in ranges && p in committed && ranges[p].start > committed[p] :: Gap(committed[p], ranges[p].start)
  }

  /** Classify every partition of the batch: replayed prefix, forward gap, or neither. */
  method ReplayPlan(ranges: Ranges, committed: Marks) returns (thresholds: Marks, gaps: map<nat, Gap>)
    ensures thresholds == Thresholds(ranges, committed)
    ensures gaps == Gaps(ranges, committed)
    ensures forall p :: p in thresholds <==> p in ranges && p in committed && ranges[p].start < committed[p]
    ensures forall p :: p in thresholds ==> thresholds[p] == committed[p]
    ensures forall p :: p in gaps <==> p in ranges && p in committed && ranges[p].start > committed[p]
    ensures forall p :: p in gaps ==> gaps[p].expected == committed[p] && gaps[p].actual == ranges[p].start
  {
    thresholds, gaps := map[], map[];
    var todo := ranges.Keys;
    while todo != {}
      invariant todo <= ranges.Keys
      invariant forall p :: p in thresholds <==> p !in todo && p in ranges && p in committed && ranges[p].start < committed[p]
      invariant forall p :: p in thresholds ==> thresholds[p] == committed[p]
      invariant forall p :: p in gaps <==> p !in todo && p in ranges && p in committed && ranges[p].start > committed[p]
      invariant forall p :: p in gaps ==> gaps[p] == Gap(committed[p], ranges[p].start)
      decreases todo
    {
      Inhabited(todo);
      var p :| p in todo;
      todo := todo - {p};
      if p in committed {
        var expected, actual := committed[p], ranges[p].start;
        if actual < expected {
          thresholds := thresholds[p := expected];
        } else if actual > expected {
          gaps := gaps[p := Gap(expected, actual)];
        }
      }
    }
  }

  lemma Inhabited(s: set<nat>)
    requires s != {}
    ensures exists p :: p in s
  {
    var p := Pick(s);
  }

  lemma Pick<T>(s: set<T>) returns (x: T)
    requires s != {}
    ensures x in s
  {
    x :| x in s;
  }

  /** Drop the records below the thresholds. */
  function Trim(frame: Frame, thresholds: Marks): Frame {
    set r | r in frame && (r.partition in thresholds ==> r.offset >= thresholds[r.partition])
  }

  function Trimmed(frame: Frame, committed: Marks): Frame {
    Trim(frame, Thresholds(RangesOf(frame), committed))
  }

  lemma {:induction false} TrimKeepsContiguity(frame: Frame, committed: Marks)
    requires Contiguous(frame)
    ensures Contiguous(Trimmed(frame, committed))
  {
    var trimmed := Trimmed(frame, committed);
    hide RangesOf, Trim;
    forall p, o | p in RangesOf(trimmed) && RangesOf(trimmed)[p].start <= o < RangesOf(trimmed)[p].end
      ensures Position(p, o) in trimmed
    {
      RangeEndsAreRecords(trimmed, p);
      BetweenSurvivors(frame, Thresholds(RangesOf(frame), committed), p, RangesOf(trimmed)[p].start, o, RangesOf(trimmed)[p].end - 1);
    }
  }

  /** A record between two survivors of one partition survives. */
  lemma BetweenSurvivors(frame: Frame, thresholds: Marks, p: nat, a: nat, o: nat, b: nat)
    requires Contiguous(frame) && Position(p, a) in Trim(frame, thresholds) && Position(p, b) in Trim(frame, thresholds) && a <= o <= b
    ensures Position(p, o) in Trim(frame, thresholds)
  {
    RangeBounds(frame, Position(p, a));
    RangeBounds(frame, Position(p, b));
    hide RangesOf;
    assert Position(p, o) in frame;
  }

  /** After trimming a batch without forward gaps there is no continuity error exactly when every replayed
      partition either vanishes or still has its next expected record. */
  lemma {:induction false} TrimmedContinuity(frame: Frame, committed: Marks)
    requires Gaps(RangesOf(frame), committed) == map[]
    ensures ContinuityErrors(RangesOf(Trimmed(frame, committed)), committed) == map[] <==>
            forall p :: p in Thresholds(RangesOf(frame), committed) && p in RangesOf(Trimmed(frame, committed))
              ==> Position(p, committed[p]) in frame
  {
    var trimmed, thresholds := Trimmed(frame, committed), Thresholds(RangesOf(frame), committed);
    forall p | p in RangesOf(trimmed) && p in committed
      ensures RangesOf(trimmed)[p].start == committed[p] <==> (p in thresholds ==> Position(p, committed[p]) in frame)
    {
      PartitionContinuity(frame, committed, p);
    }
    var errors := ContinuityErrors(RangesOf(trimmed), committed);
    assert errors == map[] <==> forall p :: p in RangesOf(trimmed) && p in committed ==> p !in errors;
  }

  lemma {:induction false} PartitionContinuity(frame: Frame, committed: Marks, p: nat)
    requires Gaps(RangesOf(frame), committed) == map[]
    requires p in RangesOf(Trimmed(frame, committed)) && p in committed
    ensures RangesOf(Trimmed(frame, committed))[p].start == committed[p] <==>
            (p in Thresholds(RangesOf(frame), committed) ==> Position(p, committed[p]) in frame)
  {
    var trimmed, thresholds := Trimmed(frame, committed), Thresholds(RangesOf(frame), committed);
    RangeEndsAreRecords(trimmed, p);
    RangeBounds(frame, Position(p, RangesOf(trimmed)[p].start));
    RangeEndsAreRecords(frame, p);
    assert p !in Gaps(RangesOf(frame), committed);
    if p in thresholds {
      if Position(p, committed[p]) in frame {
        RangeBounds(trimmed, Position(p, committed[p]));
      }
    } else {
      RangeBounds(trimmed, Position(p, RangesOf(frame)[p].start));
    }
  }

  /** A contiguous batch without forward gaps never fails the continuity check after trimming. */
  lemma {:induction false} ContiguousTrimContinues(frame: Frame, committed: Marks)
    requires Contiguous(frame) && Gaps(RangesOf(frame), committed) == map[]
    ensures ContinuityErrors(RangesOf(Trimmed(frame, committed)), committed) == map[]
  {
    TrimmedContinuity(frame, committed);
    var trimmed, thresholds := Trimmed(frame, committed), Thresholds(RangesOf(frame), committed);
    forall p | p in thresholds && p in RangesOf(trimmed) ensures Position(p, committed[p]) in frame {
      RangeEndsAreRecords(trimmed, p);
      RangeBounds(frame, Position(p, RangesOf(trimmed)[p].start));
    }
  }

  /** Trimming leaves nothing exactly when every record lies below its partition's high-water mark. */
  lemma {:induction false} FullyReplayed(frame: Frame, committed: Marks)
    ensures Trimmed(frame, committed) == {} <==> forall r :: r in frame ==> r.partition in committed && r.offset < committed[r.partition]
  {
    forall r | r in frame
      ensures r !in Trimmed(frame, committed) <==> r.partition in committed && r.offset < committed[r.partition]
    {
      RangeBounds(frame, r);
    }
  }

  /** What survives trimming starts at or after the high-water mark. */
  lemma {:induction false} TrimmedIsNew(frame: Frame, committed: Marks, r: Position)
    requires r in Trimmed(frame, committed) && r.partition in committed
    ensures committed[r.partition] <= r.offset
  {
    RangeBounds(frame, r);
  }
}
