/** Migration 007: high-water marks recomputed from the committed batches. */
module Backfill {
  import opened Events
  import opened ArchiveOffsets
  import opened Manifests
  import opened ArchiveProtocol
  import opened ArchiveProof

  /** Batches with a raw range of the partition; recovery batches are excluded. */
  function Archiving(ledger: Ledger, p: nat): set<nat> {
    set id | id in ledger && ledger[id].source.Raw? && p in ledger[id].source.ranges
  }

  function ArchivedPartitions(ledger: Ledger): set<nat> {
    set id, p | id in ledger && ledger[id].source.Raw? && p in ledger[id].source.ranges :: p
  }

  predicate AtMost(ledger: Ledger, p: nat, i: nat, j: nat)
    requires i in Archiving(ledger, p) && j in Archiving(ledger, p)
  {
    var a, b := ledger[i].source.ranges[p].end, ledger[j].source.ranges[p].end;
    a < b || (a == b && i <= j)
  }

  predicate IsBest(ledger: Ledger, p: nat, ids: set<nat>, best: nat)
    requires ids <= Archiving(ledger, p)
  {
    best in ids && forall i :: i in ids ==> AtMost(ledger, p, i, best)
  }

  lemma {:induction false} BestExists(ledger: Ledger, p: nat, ids: set<nat>)
    requires ids <= Archiving(ledger, p) && ids != {}
    ensures exists best :: IsBest(ledger, p, ids, best)
  {
    var x := Pick(ids);
    var rest := ids - {x};
    forall i | i in ids ensures i == x || i in rest {}
    if rest == {} {
      assert IsBest(ledger, p, ids, x);
    } else {
      BestExists(ledger, p, rest);
      var best :| IsBest(ledger, p, rest, best);
      assert IsBest(ledger, p, ids, if AtMost(ledger, p, best, x) then x else best);
    }
  }

  /** `DISTINCT ON (partition) ... ORDER BY next_offset DESC, batch_id DESC` */
  function Best(ledger: Ledger, p: nat): (best: nat)
    requires p in ArchivedPartitions(ledger)
    ensures IsBest(ledger, p, Archiving(ledger, p), best)
  {
    assert Archiving(ledger, p) != {} by {
      var id :| id in ledger && ledger[id].source.Raw? && p in ledger[id].source.ranges;
      assert id in Archiving(ledger, p);
    }
    BestExists(ledger, p, Archiving(ledger, p));
    var best :| best in Archiving(ledger, p) && IsBest(ledger, p, Archiving(ledger, p), best);
    best
  }

  function Recomputed(ledger: Ledger): map<nat, Mark> {
    map p | p in ArchivedPartitions(ledger) :: Mark(ledger[Best(ledger, p)].source.ranges[p].end, Best(ledger, p))
  }

  /** The upsert: the greater offset, and the new batch when its offset is at least the stored one. */
  function Merged(stored: Mark, latest: Mark): Mark {
    Mark(if stored.next >= latest.next then stored.next else latest.next,
         if latest.next >= stored.next then latest.batch else stored.batch)
  }

  function Upserted(marks: map<nat, Mark>, latest: map<nat, Mark>): map<nat, Mark> {
    marks + map p | p in latest :: if p in marks then Merged(marks[p], latest[p]) else latest[p]
  }

  /** Over arbitrary stored marks: no mark is lowered or lost, every recomputed partition ends at the larger offset, and a
      mark names the batch that its offset comes from, the recomputed one where the two agree. */
  lemma UpsertRaises(marks: map<nat, Mark>, latest: map<nat, Mark>, p: nat)
    ensures var after := Upserted(marks, latest);
            && (p in after <==> p in marks || p in latest)
            && (p in marks ==> after[p].next >= marks[p].next)
            && (p in latest ==> after[p].next >= latest[p].next)
            && (p in latest && (p in marks ==> latest[p].next >= marks[p].next) ==> after[p] == latest[p])
            && (p in marks && (p in latest ==> latest[p].next < marks[p].next) ==> after[p] == marks[p])
  {}

  /** In every reachable state the recomputation gives exactly the marks the writer maintains, so running the
      migration on a live table changes nothing and on an empty one restores it. */
  lemma {:induction false} RecomputationAgrees(s: State)
    requires Reachable(s)
    ensures Recomputed(s.ledger) == s.marks
    ensures Upserted(s.marks, Recomputed(s.ledger)) == s.marks
    ensures Upserted(map[], Recomputed(s.ledger)) == s.marks
  {
    hide Inv, Reachable, Recomputed;
    ReachableIsSound(s);
    InvHasSoundMarks(s);
    SoundMarksAreRecomputed(s);
    UpsertOfSameMarks(s.marks);
  }

  lemma UpsertOfSameMarks(marks: map<nat, Mark>)
    ensures Upserted(marks, marks) == marks && Upserted(map[], marks) == marks
  {
    assert forall m: Mark :: Merged(m, m) == m;
  }

  lemma InvHasSoundMarks(s: State)
    requires Inv(s)
    ensures RangesSound(s.ledger) && MarksSound(s.ledger, s.marks) && OffsetsTiled(s.ledger, s.marks)
  {}

  lemma {:induction false} SoundMarksAreRecomputed(s: State)
    requires RangesSound(s.ledger) && MarksSound(s.ledger, s.marks) && OffsetsTiled(s.ledger, s.marks)
    ensures Recomputed(s.ledger) == s.marks
  {
    forall p | p in s.marks ensures p in ArchivedPartitions(s.ledger) && Best(s.ledger, p) == s.marks[p].batch {
      MarkIsBest(s, p);
    }
    hide OffsetsTiled, RangesSound, Best, NextId;
    assert ArchivedPartitions(s.ledger) == s.marks.Keys by {
      ArchivedAreMarked(s);
    }
    hide MarksSound, ArchivedPartitions;
    MarksMatch(s);
  }

  lemma ArchivedAreMarked(s: State)
    requires MarksSound(s.ledger, s.marks)
    ensures ArchivedPartitions(s.ledger) <= s.marks.Keys
  {}

  lemma MarksMatch(s: State)
    requires MarksSound(s.ledger, s.marks) && ArchivedPartitions(s.ledger) == s.marks.Keys
    requires forall p :: p in s.marks ==> Best(s.ledger, p) == s.marks[p].batch
    ensures Recomputed(s.ledger) == s.marks
  {
    hide ArchivedPartitions, Best;
  }

  lemma {:induction false} MarkIsBest(s: State, p: nat)
    requires RangesSound(s.ledger) && MarksSound(s.ledger, s.marks) && OffsetsTiled(s.ledger, s.marks)
    requires p in s.marks
    ensures p in ArchivedPartitions(s.ledger) && Best(s.ledger, p) == s.marks[p].batch
  {
    var first :| Tiles(s.ledger, p, first, s.marks[p].next);
    var holder := s.marks[p].batch;
    assert holder in Archiving(s.ledger, p);
    var best := Best(s.ledger, p);
    var top, kept := s.ledger[best].source.ranges[p], s.ledger[holder].source.ranges[p];
    assert CoveredBy(s.ledger, best, p, top.end - 1);
    assert CoveredBy(s.ledger, holder, p, kept.end - 1);
  }
}
