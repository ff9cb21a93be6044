/** Reports over the archive protocol: what a snapshot of the batch ledger can rely on. */
module ArchivedReports {
  import A = ArchiveProof
  import P = ArchiveProtocol
  import opened Manifests
  import opened Publication
  import opened DayInputs
  import R = Reports
  import opened ReportProof

  /** A ledger snapshot as the batch job reads it. */
  ghost predicate Snapshot(a: P.State, batches: seq<BatchRow>) {
    forall b :: b in batches ==> b.id in a.ledger && b == A.RowOf(a, b.id)
  }

  /** A snapshot of a reachable archive lists data files only and passes verification for every day in every later
      state, whatever the raw writer and the repair do or leave undone in between. */
  lemma {:induction false} SnapshotsStayVerified(a: P.State, steps: seq<P.Step>, batches: seq<BatchRow>, day: string)
    requires A.Reachable(a) && P.CanRun(a, steps) && Snapshot(a, batches)
    ensures DataOnly(batches) && AllPass(P.RunSteps(a, steps).objects, batches, day)
  {
    hide Passes, A.Inv, P.RunSteps, P.CanRun;
    forall b | b in batches ensures Passes(P.RunSteps(a, steps).objects, b, day) {
      A.CommittedFilesVerify(a, steps, b.id, day);
    }
    forall b, rel | b in batches && rel in b.manifest.value.files ensures IsData(rel) {
      ManifestsHoldData(a, b.id, rel);
    }
  }

  lemma ManifestsHoldData(a: P.State, id: nat, rel: Rel)
    requires A.Reachable(a) && id in a.ledger && rel in a.ledger[id].manifest.files
    ensures IsData(rel)
  {
    A.ReachableIsSound(a);
    assert rel in Listed(a.objects, id);
  }

  /** No modelled writer commits a bare day file: over a reachable archive the files verified and read for a day are
      exactly the fingerprinted ones. */
  lemma {:induction false} WritersFingerprintWhatIsRead(a: P.State, batches: seq<BatchRow>, day: string)
    requires A.Reachable(a) && Snapshot(a, batches)
    ensures AllDayPaths(batches, day) == set f | f in FilesOf(batches, day) :: f.0
  {
    forall b, rel | b in batches && rel in b.manifest.value.files ensures IsData(rel) {
      ManifestsHoldData(a, b.id, rel);
    }
    hide A.Reachable;
    DataHasNoBareFile(batches, day);
    SamePathsExactly(batches, day);
  }

  /** Skipping is sound with no assumption about the objects: over any reachable archive, however far it has moved since
      the ledger was read, "unchanged" means that recomputing would give the stored rows. */
  lemma {:induction false} SkipIsSoundOverArchive(
    lib: Library, s: R.State, w: World, a: P.State, steps: seq<P.Step>, day: string)
    requires Reachable(lib, s) && A.Reachable(a) && P.CanRun(a, steps)
    requires Snapshot(a, w.batches) && w.objects == P.RunSteps(a, steps).objects
    requires day in w.landing && R.UpToDate(s, day, InputsOf(w, day))
    ensures day in s.rows && Recompute(lib, w, day) == Computed(s.rows[day])
  {
    hide *;
    SnapshotsStayVerified(a, steps, w.batches, day);
    DataHasNoBareFile(w.batches, day);
    SkipIsSound(lib, s, w, day);
  }
}
