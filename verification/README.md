# Fleet telemetry platform: a verified model

The platform ingests vehicle events through Kafka and keeps three views of them. This project models
the code that keeps those views consistent and proves what that code promises.

* **Serving.** `merge_staged` merges micro-batches into identity, conflict, trip, vehicle, alert and
  window tables with set-based SQL; `bulk_serve` does the same row by row. Conflicts found later
  retract what was accepted earlier. `Reference.dfy` defines from scratch, over the *set* of all
  events ever delivered, which ids and trips are bad and which events are live; the main theorems say
  that the incremental tables equal those definitions after every run, whatever the order, the batch
  split and the repetitions.
* **Archive.** The raw writer trims replayed prefixes, allocates a batch id, writes objects and commits;
  gap repair is a second writer under the same lock; migration 007 recomputes the high-water marks. The
  protocol is a state machine with a crash possible between any two steps (`ArchiveProtocol.dfy`), and its
  invariant gives exactly-once coverage and immutable committed batches (`ArchiveProof.dfy`).
* **Batch.** The daily aggregation, the reference `reconcile`, coverage arithmetic, expense validation, the
  pending/published protocol with its crash points, and the budgeted catch-up over all days.
* **Serving against batch.** The conflict ledger files every conflict under the days it concerns (`ConflictDays.dfy`),
  and a day's report counts exactly the completed trips that serving holds for that day (`LiveTotals.dfy`).

## How the model is built

Code that changes tables, objects or files step by step is imperative: the classes `ServingStore.Store`,
`ArchiveStore.Archive` and `ReportStore.Store`, and the methods of `BulkLoops`, `ArchiveOffsets`, `Manifests`,
`GapRecovery`, `Expenses`, `Reconcile`, `Coverage` and `Publication`. Each such method is proved equal to a specification function,
and the theorems are about those functions and about runs of them. `Reports` and `ArchiveProtocol` hold the step
relations; `CatchUp.DayIsARun` and `ArchiveStore.RawAttemptIsARun` tie the methods to them.

| files | content |
|---|---|
| `Text`, `Sums`, `Events` | text order, sums over finite sets, the event and its business identity |
| `Reference`, `Ledgers`, `LedgerProof`, `MergeProof`, `ServingRuns` | the reference, the merge statement by statement, and whole runs |
| `BulkLedgers`, `BulkLoops`, `ServingLimits` | the row-by-row form, its loops, and inputs where stronger claims fail |
| `VehicleState`, `VehicleTable`, `Windows`, `ServingSystem`, `ServingLaws`, `WindowReference`, `ServingStore` | live vehicles, alerts, windows, all tables together |
| `ArchiveOffsets`, `Manifests`, `ArchiveProtocol`, `ArchiveProof`, `GapRecovery`, `ArchiveStore`, `Backfill` | the archive writers |
| `Expenses`, `Reconcile`, `Aggregate`, `Coverage`, `Parity`, `Conservation` | the daily figures |
| `ConflictDays`, `LiveTotals` | the conflict ledger by day, and daily figures against the completed-trip table |
| `DayCoverage`, `ReportLaws` | what a report says of coverage, costs and conflicts, from its inputs alone |
| `DayInputs`, `Publication`, `Reports`, `ReportProof`, `CatchUp`, `ReportStore`, `ArchivedReports` | daily publication |

## Assumptions

* SHA-256 digests and fingerprints are injective; the model stores the digested value itself. The event fingerprint
  covers the identity fields, with the timestamp as an instant in microseconds. The input fingerprint of a daily run
  hashes file bytes followed by JSON text; equal fingerprints stand for equal parts.
* A Kafka position determines its record, and deliveries to the raw writer are contiguous per partition.
  The topic is fixed.
* Producers never use event ids that start with `prior:`, and completed events carry a non-empty trip id. The second part
  is validation's rule; `MergeProof.MistakenIdsExactly` says what exactly happens without the first.
* Database sessions run in UTC, so the date of a timestamp is its UTC day. The daily run sees the day's delivered events
  in the archive where `LiveTotals` compares it with serving.
* A transaction is one step. Advisory locks are released when their session dies. Text is ordered by code point.
* Written Parquet files are not empty, and nothing outside the modelled writers touches committed batch roots or published
  report files.
* The clock and random run ids are inputs: run ids are a counter, the set of runs older than the stall limit is given.

## Where code and comments differ

The model follows the code. The comment in `bulk_serve` that every conflict payload is preserved fails for rows whose key
is taken: a reused batch id can lose a trip (`ServingLimits.ReusedBatchIdLosesTrip`), and does so exactly when no row that
carries it has a free key (`BulkLedgers.BulkRecordsTripsExactly`); it can also lose a day (`ServingLimits.ReusedBatchIdLosesDay`). The description of `run_available` says that it scans all landed
days, but it stops at the budget (`CatchUp.SweepReportsFailures`). `reconcile` and the aggregation use different notions
of a conflicting trip (`Parity.ZoneDisagreementSplitsThePaths`). A vehicle's coverage count includes zones, so on days
with zone changes `complete` does not exclude a missing tick at the edge of the day, but never hides one in between
(`Coverage.CompleteExactly`). `run_day` closes stalled runs inside the transaction that surrounds the run: a day that raises
loses the recovery (`CatchUp.OrphansAfterDay`). The fingerprint skips a bare file named like a day, which is read all the
same (`DayInputs.BareDayFileEscapesFingerprint`); none of the modelled writers produces such a file
(`ArchivedReports.WritersFingerprintWhatIsRead`).

## Model

| member | source | states |
|---|---|---|
| Reference.LiveShrinks | streaming/staged_sink.py:137-155 | an event that was dead stays dead however much is delivered later: acceptance is only ever withdrawn |
| Reference.LiveCompletionsAgree | streaming/staged_sink.py:94-98 | live completions of one trip agree in vehicle, fare, time and zone, so the completed-trip view is single-valued |
| Ledgers.AcceptedIsCoherent | streaming/staged_sink.py:157-164 | for any tables and any batch, the accepted rows have one event per id and agreeing completions per trip |
| LedgerProof.NoBlockedTripIsLost | streaming/staged_sink.py:116-137 | after the three conflict inserts the blocked trips are exactly the earlier ones plus the batch's bad trips, although inserts of existing keys are dropped |
| LedgerProof.ReasonsStayDetermined | streaming/staged_sink.py:116-137 | day, trip and vehicle of a conflict row stay a function of event id and reason, taken from a Kafka position or an append-only key; a `prior:` id determines the trip |
| LedgerProof.ConflictedIdsAfterMerge | streaming/staged_sink.py:116-137 | the ids a merge adds to the conflict ledger are those of its rejected rows and of the withdrawn trips |
| MergeProof.BadIdIsCaught | streaming/staged_sink.py:83-92 | a delivered event whose id is bad among all events seen is always among the conflicting ids |
| MergeProof.ConflictIdIsJustified | streaming/staged_sink.py:83-92 | no id without the reserved prefix is treated as conflicting unless it is bad or all its copies sit on bad trips |
| MergeProof.BadTripIsCaught | streaming/staged_sink.py:94-114 | every trip that is bad after the batch is blocked by the batch or was recorded before |
| MergeProof.BlockedTripIsBad | streaming/staged_sink.py:94-114 | every trip the batch blocks is bad in the set of all events seen |
| MergeProof.SurvivesExactlyIfUnblocked | streaming/staged_sink.py:148-155 | a seen live event stays live exactly when neither its id nor its trip is blocked now, so the deletes withdraw exactly what has to go |
| MergeProof.DeliveredIsLiveExactlyIfUnrejected | streaming/staged_sink.py:157-163 | a delivered event is live exactly when the batch does not reject it |
| MergeProof.AfterMirrors | streaming/staged_sink.py:148-227 | the deletes and inserts bring keys, conflicts, trips and contributions in line with the reference for any correct choice of blocked ids and trips |
| MergeProof.MergeConflictsAgree | streaming/staged_sink.py:116-137 | a staged merge adds exactly its rejected ids and its bad trips to the conflict ledger, even when its Spark batch id was used before |
| MergeProof.MergeKeepsMirror | streaming/staged_sink.py:79-248 | one merge keeps the incremental tables equal to the from-scratch definitions over all events seen |
| MergeProof.MergeKeepsReasons | streaming/staged_sink.py:116-137 | one merge keeps payload trips determined by id and reason |
| BulkLedgers.BulkSetsExceedByRecorded | streaming/sink.py:110-130 | `bulk_serve` never blocks the empty trip; apart from it, it blocks everything the staged merge blocks and beyond that only ids and trips already in the conflict ledger |
| BulkLedgers.SameEffectOfBulk | streaming/sink.py:131-162 | when nothing hangs on an empty trip id, both forms accept, retract, withdraw and reject the same |
| BulkLedgers.BulkConflictedIds | streaming/sink.py:131-151 | whatever batch id is used, no rejected id is lost from the conflict ledger |
| BulkLedgers.BulkRecordsTripsExactly | streaming/sink.py:131-151 | for any batch id, used or not, the blocked trips afterwards are the earlier ones plus the bad ones of the batch if and only if every bad trip not blocked yet is carried by a rejected row whose key is not taken |
| BulkLedgers.FreshBatchLosesNoTrip | streaming/sink.py:131-151 | a batch id that is not in the ledger yet meets that condition |
| BulkLedgers.BulkKeepsMirror | streaming/sink.py:97-191 | under the condition for agreement the row-by-row form also keeps the tables equal to the from-scratch definitions |
| BulkLedgers.BulkMatchesMerge | streaming/sink.py:97-191 | from any state that mirrors its history and for any batch and batch id, both forms leave the same keys, contributions, trips, conflicted ids and blocked trips if and only if nothing hangs on an empty trip id and no bad trip's row is a duplicate |
| BulkLedgers.FreshBatchMatchesMerge | streaming/sink.py:97-191 | with a batch id that is not in the ledger yet, they do if and only if nothing hangs on an empty trip id |
| ServingRuns.RunMirrorsReference | streaming/staged_sink.py:79-248 | after any admissible run of deliveries, in any order, split or repetition and mixing both forms, the tables equal the reference over the set of delivered events |
| ServingRuns.RunEqualsReference | streaming/staged_sink.py:83-170 | contribution ids are the ids of live events, blocked trips are the bad trips, completed trips are the live completions with their signatures, and every real id in the conflict ledger was delivered and is bad or was only seen on bad trips: nothing missed and nothing spurious |
| ServingRuns.OrderAndSplitDoNotMatter | streaming/staged_sink.py:94-227 | two runs that deliver the same events end with the same contributions, completed trips and blocked trips |
| ServingRuns.ReplayIsInvisible | streaming/staged_sink.py:157-227 | redelivering events already seen, in whatever mixture and with whatever batch id is admissible, changes none of the views |
| ServingRuns.KeysAreAppendOnly | streaming/staged_sink.py:224-227 | identity rows are never removed or changed by later deliveries |
| ServingRuns.KeysAreOnceLive | streaming/staged_sink.py:157-164 | after any admissible run the key ledger holds exactly the events that were live after some delivery, under their ids |
| ServingRuns.KeyIsDecidedOnArrival | streaming/staged_sink.py:157-164 | an event has its key if and only if it is live right after the delivery that brings it first |
| ServingRuns.SameKeysExactly | streaming/staged_sink.py:224-227 | two runs end with the same accepted identities if and only if the same events were live at some point, and with the same ids if and only if events of the same ids were |
| ServingRuns.PriorRowsMarkWithdrawnTrips | streaming/staged_sink.py:132-137 | after any admissible run the conflict ledger holds a `prior:` id of a trip if and only if the trip is bad and a completion of it was live before |
| MergeProof.MistakenIdsExactly | streaming/staged_sink.py:83-92 | a delivered id with no conflict behind it is taken for a conflicting one if and only if it has the `prior:` prefix and is in the conflict ledger |
| ServingLimits.KeysDependOnBatching | streaming/staged_sink.py:157-163 | two copies of an id together leave no key, one after the other they leave one |
| ServingLimits.ReusedBatchIdLosesTrip | streaming/sink.py:136-151 | with a reused batch id the row of another trip of the same id is dropped and that bad trip is never recorded: copy indexes do not name rows uniquely |
| ServingLimits.PriorPrefixIsMistaken | streaming/staged_sink.py:132-137 | complete a trip, contradict it, then deliver an event called `prior:` plus that trip: it is live among everything delivered, yet it is taken for a conflicting one and never contributes |
| ConflictDays.MergeFiles | streaming/staged_sink.py:116-137 | a staged merge, also under a used batch id, leaves for every rejected record a row with its own id, day and trip, for every known copy of a conflicting id a row of that copy's day, and for every withdrawn trip a row of the day it was completed |
| ConflictDays.BulkFiles | streaming/sink.py:131-151 | so does `bulk_serve`, if no rejected row is dropped for a different one under its key |
| ConflictDays.FreshBatchDropsNothing | streaming/sink.py:149-151 | a batch id that is not in the ledger yet meets that condition |
| ConflictDays.RunFilesByDay | streaming/staged_sink.py:116-137 | after any run of staged merges, and of row-by-row batches that drop nothing, each seen event with a bad id is named with its vehicle by a conflict row of its own UTC day, and each seen completion of a bad trip has a row of its own day that carries the trip and the vehicle, on whatever days the contradicting events lie |
| ServingLimits.ReusedBatchIdLosesDay | streaming/sink.py:136-151 | with a reused batch id in `bulk_serve` a completion of a blocked trip can be left without any row of its day |
| LiveTotals.CleanDayKeepsLive | batch/spark_reconcile.py:82-89 | for the seen events of a day and the conflict rows of that day, the events kept before trips are counted include every live one and none whose id is bad across all days |
| LiveTotals.DailyTripsAreCompletedTrips | batch/reconcile.py:69-113 | after every admissible run that drops no row, the trips the daily aggregation counts from the seen events of a day and the ids and trips of that day's conflict rows are exactly the `completed_trips` of that day with vehicle, fare, time and zone; reading further rows of the ledger changes nothing, so the filter on the day loses no conflict |
| LiveTotals.ReportShowsCompletedTrips | batch/reconcile.py:107-149 | the report computed from them shows for each known vehicle the number and fares of its completed trips of that day, and the same per zone with no other zone |
| LiveTotals.BadEventMarksVehicle | batch/spark_reconcile.py:88-98 | an event with a bad id, or a completion of a bad trip, marks its vehicle as conflicting on its own day |
| LiveTotals.BadEventNamesVehicle | batch/reconcile.py:115-128 | the day's conflict rows name the vehicle of such an event, so its profit is withheld |
| LiveTotals.MarkedVehicleHasDeadEvent | batch/spark_reconcile.py:88-98 | no vehicle is marked without an event of that day that is not live |
| ServingLimits.EmptyTripSplitsThePaths | streaming/sink.py:127-130 | an empty trip id blocks its other events in the staged merge and not in `bulk_serve` |
| BulkLoops.GroupById | streaming/sink.py:116-118 | the grouping loop gives every id its copies in batch order |
| BulkLoops.ScanConflicts | streaming/sink.py:110-115 | the scan collects the ids and the non-empty trips of exactly the matching conflict rows |
| BulkLoops.FindConflictingIds | streaming/sink.py:119-121 | counting distinct fingerprints together with the stored one finds exactly the conflicting ids |
| BulkLoops.CollectSignatures | streaming/sink.py:122-126 | the loop collects exactly the completion signatures of every trip |
| BulkLoops.FindDisputedTrips | streaming/sink.py:127-128 | counting distinct signatures together with the stored one finds exactly the disputed trips |
| BulkLoops.Sift | streaming/sink.py:136-144 | the main loop rejects every copy of a blocked id or trip under its index and accepts one event per new unblocked id |
| BulkLoops.FoldAccepted | streaming/sink.py:168-178 | the sorted loop leaves the folded vehicle rows, the set of changed vehicles and the completed trips |
| VehicleState.Latest | streaming/staged_sink.py:197-198 | the last event in (time, id) order, after all others |
| VehicleState.MaxTs | streaming/staged_sink.py:193 | null exactly over no rows, otherwise an attained upper bound of the times |
| VehicleState.MinTs | streaming/staged_sink.py:194 | null exactly over no rows, otherwise an attained lower bound of the times |
| VehicleState.FoldClosedForm | streaming/sink.py:169-175 | what the sequential fold stores for any batch: late events are skipped, and the closing idle run counts from its first event that is not late unless it continues the stored idle row |
| VehicleState.SetBasedMeetsFold | streaming/staged_sink.py:190-218 | for any stored row and any batch, late events included, the min/max/LEAST formula stores the folded row if and only if nothing is new, the batch ends busy, or the two idle starts coincide |
| VehicleState.NewerBatchesAgree | streaming/staged_sink.py:190-218 | for a batch after the stored row the two forms agree if and only if no idle event closes the batch at the instant of the last busy one and no all-idle batch meets an idle row without a start |
| VehicleState.DistinctTimesAgree | streaming/staged_sink.py:190-218 | later events with distinct times after a row whose idle start is known: both forms store the same row |
| ServingLimits.LateBusyEventSplitsThePaths | streaming/staged_sink.py:200-206 | a late busy event before a new idle one breaks the agreement for every stored idle row |
| ServingLimits.LateIdleEventSplitsThePaths | streaming/staged_sink.py:202-203 | a late idle event before a new one agrees if and only if it is not before the stored idle start |
| ServingLimits.TieLeavesUnknownStart | streaming/staged_sink.py:204-206 | an idle event at the instant of the last busy one leaves an idle row without a start |
| VehicleTable.FoldIsPerVehicle | streaming/sink.py:169-175 | folding all accepted events treats every vehicle as if its own events were alone |
| VehicleTable.PathsAgreeOnVehicle | streaming/staged_sink.py:190-218 | for any stored vehicles and accepted events, both forms store the same row of a vehicle if and only if its own events meet the agreement condition |
| VehicleTable.KeptRowsAreLive | streaming/staged_sink.py:149-152 | vehicle rows that survive the deletion still show a live event |
| VehicleTable.UpsertKeepsMirror | streaming/staged_sink.py:190-218 | the guarded upsert stores only live events of the right vehicle with a proper idle start |
| VehicleTable.FoldKeepsMirror | streaming/sink.py:168-184 | so does the sequential form |
| ServingSystem.StepOnlyAdvances | streaming/staged_sink.py:149-218 | after any merge of either form, or Spark write, a vehicle's row is unchanged or strictly newer in (time, event id), unless that step withdraws it |
| ServingSystem.StretchOnlyAdvances | streaming/staged_sink.py:149-218 | over any stretch of a run in which no step withdraws a vehicle's row, (time, event id) of the row never goes back |
| VehicleTable.AlertsStaySingle | streaming/staged_sink.py:229-243 | raising and resolving keeps at most one open idle alert per vehicle |
| VehicleTable.BulkAlertsStaySingle | streaming/sink.py:194-224 | so does the row-by-row form |
| VehicleTable.AlertOpenAfterMerge | streaming/staged_sink.py:229-243 | after a merge a candidate's alert is open exactly if it is idle and was reported before or has idled long enough |
| VehicleTable.AlertOpenAfterBulk | streaming/sink.py:212-224 | the row-by-row form also closes the alert of a vehicle that has not idled long enough: open exactly if the threshold is met now |
| ServingLaws.KeptExactly | streaming/staged_sink.py:149-152 | a vehicle row is withdrawn if and only if the event it shows is no longer live |
| ServingLaws.CaseIsMergeStart | streaming/staged_sink.py:190-206 | the CASE expression gives the earliest known start for an all-idle batch over an idle row, and otherwise the first idle event after all busy ones |
| ServingLaws.StartExists | streaming/staged_sink.py:190-206 | such a start exists for every stored row and every set of events |
| ServingLaws.MergeVehiclesExactly | streaming/staged_sink.py:149-218 | after any merge a vehicle keeps its row while the event it shows is live and nothing later is admitted; otherwise its row shows the last admitted event by time and id, with that idle start |
| ServingLaws.FoldShowsNewest | streaming/sink.py:168-178 | the fold keeps a row while nothing later comes; otherwise it shows the last event, and its idle start is the stored one or the first idle event of the closing run |
| ServingLaws.BulkVehiclesExactly | streaming/sink.py:153-184 | the same for whole row-by-row batches whose empty trip id, if any, does no harm |
| ServingLaws.MergeAlertsExactly | streaming/staged_sink.py:229-243 | after any merge a vehicle with admitted events has an open alert if and only if the last of them is idle and it was reported before or its idle start lies at least the threshold before the latest admitted event; earlier alerts stay, at most one is added, and every other vehicle's history is unchanged |
| ServingLaws.BulkAlertsExactly | streaming/sink.py:194-224 | after any row-by-row batch the alert is open if and only if the stored row has an idle start that lies at least the threshold before the latest admitted event; histories as above |
| ServingLaws.NoEventNoAlert | streaming/sink.py:163-164 | a batch that admits no event changes no alert |
| ServingLaws.MergeWindowsExactly | streaming/staged_sink.py:139-188 | a merge rewrites exactly the windows that lose a contribution or contain a delivered event that is not live, and leaves every other row, Spark's included, as it was |
| ServingLaws.BulkWindowsExactly | streaming/sink.py:50-94 | so does a row-by-row batch whose empty trip id, if any, does no harm |
| ServingLaws.MergeKeys | streaming/staged_sink.py:224-227 | exactly the admitted events get identity rows, with their own time, vehicle and trip, in the name of the batch, and older rows stay |
| ServingLaws.BulkKeys | streaming/sink.py:189-191 | so does the row-by-row form |
| Events.CalendarOf | streaming/staged_sink.py:116-168 | the day of an instant is the UTC day that contains it, its window the whole minute that does |
| Text.LessMeans | streaming/staged_sink.py:197-218 | a text is less than another exactly if it is a proper prefix or has the smaller character where they first differ |
| Windows.LostContributionCorrects | streaming/staged_sink.py:139-188 | a window that loses a contribution is among the affected windows and its row becomes the aggregate of what remains |
| Windows.RetractionIsExact | streaming/staged_sink.py:171-183 | a retraction takes exactly the lost completed rows and their fares out of the trips and earnings of its window |
| Windows.SparkKeepsCorrected | streaming/staged_sink.py:70-76 | a Spark update never changes a corrected row |
| ServingSystem.SortEvents | streaming/sink.py:169 | the accepted events in (time, id) order, none lost and none added |
| ServingSystem.SystemLedgersAreRuns | streaming/staged_sink.py:79-248 | windows, vehicles and alerts never feed back into the identity ledgers |
| ServingSystem.RunKeepsVehicles | streaming/staged_sink.py:149-243 | after every run each vehicle row refers to a live event of that vehicle, its idle start belongs to an idle row and is not after the event, and each vehicle has at most one open idle alert |
| ServingSystem.CorrectedRowsAreExact | streaming/staged_sink.py:171-188 | after every run a window is marked corrected exactly if some merge corrected it, and its row is the aggregate over the contributions at the last such merge, whatever Spark wrote |
| ServingSystem.LossIsCorrected | streaming/staged_sink.py:139-188 | whenever a contribution disappears its window is corrected in the same step |
| ServingSystem.OnlyGainsSinceCorrection | streaming/staged_sink.py:139-188 | since its last correction a window can only have gained contributions: later good events reach the contributions and not the row |
| Windows.GainsKeepAggregateExactly | streaming/staged_sink.py:171-183 | when a window only gains contributions its aggregate stays the same if and only if none of the gains is completed and each shows a vehicle already counted, as idle if it is idle and as active if it is not |
| ServingSystem.CorrectedRowIsCurrentExactly | streaming/staged_sink.py:139-188 | after any run the row of a corrected window equals the aggregate over the present contributions if and only if what was gained since the last correction adds nothing in that sense |
| WindowReference.CorrectedRowIsLiveExactly | streaming/staged_sink.py:139-188 | under the same condition, and no other, it is the from-scratch row over everything delivered so far |
| WindowReference.AggregateShowsLiveEvents | streaming/staged_sink.py:171-183 | the aggregate over the contribution table is the window row computed from scratch over the live events: vehicles, busy vehicles, idle ratio, completed events and earnings |
| WindowReference.CorrectedRowShowsLiveEvents | streaming/staged_sink.py:139-188 | right after any merge that affects a window, in any run, its row is that from-scratch row over everything delivered so far |
| ServingStore.Store.StagePartition | streaming/staged_sink.py:10-27 | chunked loading stages every row exactly as one insert would, the first row per position winning, and touches no other table |
| ServingStore.Store.Write | streaming/staged_sink.py:30-36 | one chunk extends the loaded prefix |
| ServingStore.LoadedRowsComeFromTopic | streaming/staged_sink.py:10-36 | loading stages exactly the given positions for its run, each with what Kafka holds there, and leaves other runs alone |
| ServingStore.Store.MetricsPartition | streaming/staged_sink.py:62-76 | the window rows of one partition, sent in pages of 500, amount to one guarded upsert: new and uncorrected windows get Spark's row, corrected ones keep theirs |
| ServingStore.Store.MergeStaged | streaming/staged_sink.py:79-248 | exactly the run's staged rows that are at most a day old are merged, by the specified next state of all tables; afterwards the rows of other runs that are at most a day old are staged as before, and no others |
| ServingStore.Store.ServeMicroBatch | streaming/speed_job.py:51-56 | staging all partitions under an unused run id and merging within a day delivers exactly the records handed over, each as Kafka holds it, and leaves other runs staged |
| LedgerProof.RecordConflictsRecords | streaming/staged_sink.py:116-137 | the three inserts keep every old row, add one row per rejected record, known copy and withdrawn trip, and nothing else |
| ServingStore.Store.BulkServe | streaming/sink.py:97-226 | an oversized batch is refused without any change; otherwise the tables become the specified next state, and every vehicle with an admitted event has an open alert exactly if its stored idle start lies at least the threshold before the latest admitted event |
| ServingStore.Store.FindBlocked | streaming/sink.py:102-130 | lookups and loops together compute exactly the specified blocking sets |
| ServingStore.Store.SiftAll | streaming/sink.py:131-148 | all rejected rows and the accepted events, as specified |
| ServingStore.Store.AdmitInOrder | streaming/sink.py:165-224 | the sequential counterpart of the set-based updates |
| ArchiveOffsets.RangeBounds | streaming/raw_job.py:115-119 | every record lies between the start and the end of its partition's range |
| ArchiveOffsets.RangeEndsAreRecords | streaming/raw_job.py:115-119 | the start of a range and the offset before its end are offsets of records of the batch |
| ArchiveOffsets.IdentityIgnoresOrder | streaming/raw_job.py:31-50 | the source identity does not depend on the order in which partitions are returned |
| ArchiveOffsets.ReplayPlan | streaming/raw_job.py:64-84 | a partition is a replayed prefix exactly if it starts below its high-water mark, a forward gap exactly if it starts above it, and neither without a mark or at it |
| ArchiveOffsets.TrimmedContinuity | streaming/raw_job.py:130-164 | after trimming a batch without forward gaps there is no continuity error if and only if every replayed partition vanishes or still has its next expected record |
| ArchiveOffsets.ContiguousTrimContinues | streaming/raw_job.py:53-84 | a contiguous batch without forward gaps never fails the continuity check after trimming |
| ArchiveOffsets.FullyReplayed | streaming/raw_job.py:132-144 | nothing remains after trimming if and only if every record lies below its high-water mark |
| ArchiveProof.DecisionIsClean | streaming/raw_job.py:112-164 | from a sound state a contiguous delivery is archived, skipped or refused as a forward gap; the committed-fingerprint lookup can never hit |
| ArchiveProof.DecisionExactly | streaming/raw_job.py:106-168 | from a sound state the decision on an unbroken delivery, from its records and the marks alone: forward gap, archive exactly the new records, or nothing |
| ArchiveOffsets.UnbrokenIsContiguous | streaming/raw_job.py:115-119 | no record missing between two records of a partition is the same as all offsets of its range being there |
| ArchiveProof.ReplayCommitsNothing | streaming/raw_job.py:132-144 | a fully replayed batch commits nothing |
| ArchiveProof.CommitKeepsTiling | streaming/raw_job.py:200-215 | the committing transaction extends the tiling of its partitions by exactly its own offsets |
| ArchiveProof.RootsStay | streaming/raw_job.py:188-190 | no step of either writer writes under the root of a committed batch |
| ArchiveProof.StepKeepsInv | streaming/raw_job.py:106-222 | every step, a crash included, keeps tiling, marks, manifests and committed objects sound |
| ArchiveProof.RunKeepsInv | streaming/raw_job.py:23-28 | so does every run of writer, repair and crashes under the one lock |
| ArchiveProof.RunExtends | streaming/raw_job.py:97-104 | high-water marks never move back although they are overwritten, committed rows never change and committed objects are immutable |
| ArchiveProof.ExactlyOnceCoverage | streaming/raw_job.py:64-104 | in every reachable state the committed ranges of a partition tile [first, next_offset) without gap or overlap and their row counts add up to its length |
| ArchiveProof.DeliveriesNeverCollide | streaming/raw_job.py:154-164 | in every reachable state a contiguous delivery meets neither an earlier commit of its range nor a discontinuity after trimming |
| ArchiveProof.CommittedFilesVerify | common/archive.py:54-80 | every committed batch passes verification for every day in every later state, and each of its files belongs to exactly one day |
| ArchiveProof.NoLeftoversCommitted | common/archive.py:36-51 | a manifest that gets committed lists the files of its own attempt and nothing a crashed attempt left behind |
| ArchiveProtocol.NextId | streaming/raw_job.py:167-168 | the allocated batch id is one more than the largest committed one, or zero |
| ArchiveStore.Archive.AdvanceOffsets | streaming/raw_job.py:97-104 | the marks of the batch's partitions become its range ends, the others stay |
| ArchiveStore.Archive.CommitAttempt | streaming/raw_job.py:200-215 | ledger row, verification row and marks change together |
| ArchiveStore.Archive.PlanBatch | streaming/raw_job.py:111-168 | the reads before writing compute the specified decision |
| ArchiveStore.Archive.WriteAndCommit | streaming/raw_job.py:188-215 | overwriting the root, describing it and committing archives exactly the written files |
| ArchiveStore.Archive.ProcessBatch | streaming/raw_job.py:106-222 | over any reachable archive an unbroken delivery is refused as a forward gap exactly if all its records of some marked partition lie above the mark; otherwise it is archived exactly if it has a record without a mark, at it or above it, and then exactly these records are, under a new id, with the marks moved one past the last of each partition; otherwise nothing happens |
| GapRecovery.Recover | scripts/repair_archive_gap.py:77-99 | the polling loop recovers the messages of the gap in arrival order |
| GapRecovery.GapIsExact | scripts/repair_archive_gap.py:87-99 | an event is recovered if and only if a message at an offset below the end of its partition in the snapshot holds it and its time is after the raw maximum, or at it with the boundary included, and not after the live maximum |
| GapRecovery.RelIsData | scripts/repair_archive_gap.py:120-150 | the file of a day is found by the glob and read for exactly that day |
| GapRecovery.VerifyIdentities | scripts/repair_archive_gap.py:28-47 | the check passes if and only if every recovered event is the accepted one of its id or its id is in the conflict ledger without an accepted one |
| GapRecovery.SeenEventsVerifyExactly | scripts/repair_archive_gap.py:43-47 | events the serving path has seen are refused exactly when one of them differs from the accepted event of its id |
| GapRecovery.GroupByDate | scripts/repair_archive_gap.py:108-117 | every recovered event is in its UTC day's list and the lists hold as many rows as there are events |
| GapRecovery.DescribeFiles | scripts/repair_archive_gap.py:119-127 | one nonempty data file per day, with row counts that add up to the recovered events |
| ArchiveStore.Archive.RepairGap | scripts/repair_archive_gap.py:50-161 | the whole repair: each refusal happens exactly under its condition and changes nothing, the commit happens if and only if nothing foreign lies under the root and the snapshot was not committed before, marks stay, and it is a run of the protocol |
| ArchiveStore.Archive.RunBackfill | sql/007_hardening.sql:15-34 | the migration upserts the recomputed marks, and in reachable states changes nothing |
| ArchiveStore.RawAttemptIsARun | streaming/raw_job.py:106-222 | an undisturbed raw attempt is a run of the step relation |
| ArchiveStore.RepairAttemptIsARun | scripts/repair_archive_gap.py:107-153 | an undisturbed repair is a run of the step relation |
| ArchiveStore.RepairedRootLists | common/archive.py:36-51 | after a repair's writes the row totals match exactly when no foreign data file lies under the root |
| Backfill.Best | sql/007_hardening.sql:16-28 | the batch with the highest range end of a partition, ties to the newest |
| Backfill.RecomputationAgrees | sql/007_hardening.sql:15-34 | in every reachable state the recomputation equals the maintained marks: running it changes nothing, and on an empty table it restores them |
| Backfill.UpsertRaises | sql/007_hardening.sql:15-34 | over arbitrary stored marks none is lowered or lost, a lagging one is lifted to the recomputed offset, and each names the batch its offset comes from |
| Manifests.BuildManifest | common/archive.py:36-51 | the manifest lists every data file with digest and row count, and is refused exactly when the rows do not add up |
| Manifests.VerifyBatch | common/archive.py:60-79 | a batch passes exactly when its manifest is sound, its paths are safe and its files of the day are present and unchanged |
| Manifests.VerifiedPaths | common/archive.py:54-80 | verification succeeds exactly when every batch passes, and then returns exactly the files of the day |
| Manifests.PassesExactly | common/archive.py:54-80 | what passing means: a version 1 manifest with the right totals, relative paths without "..", and every file under the day's directory present with the listed bytes |
| Manifests.SameTotalSameFiles | common/archive.py:49-50 | a part of a listing of nonempty files with the same row total is the whole listing: the total check detects missing and foreign files |
| Manifests.DataBelongsToOneDay | common/archive.py:70-75 | a file found by the glob has a safe path and is returned for exactly one day |
| Expenses.CountVehicles | common/domain.py:69 | the counter of rows per vehicle |
| Expenses.ValidateExpenses | common/domain.py:67-91 | every row is accepted or quarantined with the first failing check, accepted vehicles are known and distinct, row numbers start at two |
| Expenses.DuplicatesAreQuarantined | common/domain.py:78-79 | every copy of a duplicated vehicle is quarantined |
| Expenses.ValidCostsAreDistinct | common/domain.py:67-91 | accepted costs come from accepted rows, one per vehicle |
| Expenses.AcceptsExactly | common/domain.py:67-91 | a row is accepted if and only if it has all columns, a known vehicle, no second row of that vehicle, the report's date, a distance from 0 to 2000, an allowed flag and both amounts |
| Expenses.AcceptedCount | common/domain.py:67-91 | there are as many accepted costs as such rows |
| Reconcile.Reconcile | common/domain.py:94-128 | the scan fails if and only if two completions of one trip in the day differ in vehicle, fare or instant; otherwise it returns the specified report |
| Reconcile.ReconcileIgnoresOrder | common/domain.py:94-128 | the same events and accepted costs, in whatever order and with repeated events, fail both times or give the same rows |
| Reconcile.AddTrip | common/domain.py:109-112 | the running totals stay the count and the revenue of the trips seen |
| Reconcile.BuildRows | common/domain.py:113-128 | one row per vehicle with trips or costs, in vehicle order |
| Aggregate.DedupKeepsCleanEvents | batch/spark_reconcile.py:82-89 | whichever row deduplication keeps per id, the kept business events are the unambiguous ones |
| Aggregate.GoodTripsAreUndisputed | batch/spark_reconcile.py:82-99 | a trip counts if and only if nobody blocked it, some completion of it has an undisputed id, and no two such completions contradict each other |
| Aggregate.TotalsIgnoreDeduplication | batch/spark_reconcile.py:82-100 | totals per vehicle and zone are the same for all choices of kept rows: a function of the set of business events |
| Aggregate.RowTotalIsTripTotal | batch/spark_reconcile.py:100 | counting and summing kept rows is counting and summing trips |
| Aggregate.TotalsAreConserved | batch/spark_reconcile.py:100-138 | whatever the key, the totals of all its groups add up to all trips and all revenue |
| Conservation.AggregationConserves | batch/spark_reconcile.py:120-138 | in every aggregated report, trips and revenue summed over the vehicle rows equal those summed over the zone rows, and are those of all trips that count |
| Conservation.ReportConservesTotals | batch/reconcile.py:116-142 | the same holds for every report a daily run computes, after the override by the conflict ledger |
| Aggregate.OneRowPerVehicle | batch/spark_reconcile.py:120-121 | a vehicle gets exactly one report row if and only if it has at most one cost row |
| Aggregate.JoinIsOneRowEach | batch/spark_reconcile.py:120-130 | with distinct cost rows the report has one row per known vehicle, in order, with the specified content |
| Aggregate.NoPathsIsTheEmptyDay | batch/spark_reconcile.py:47-55 | the early answer for a day without files is what the aggregation gives for no events and no coverage |
| Coverage.ExpectedCountsTicks | batch/spark_reconcile.py:59-62 | for a positive step the difference of the ceilings counts exactly the ticks k*step inside the day |
| Coverage.CompleteMeansNoTickMissing | batch/spark_reconcile.py:101-113 | for a one-zone vehicle observed only at ticks, on a day with a tick, `complete` holds if and only if no tick of the day is missing |
| Coverage.CompleteExactly | batch/spark_reconcile.py:101-113 | for a vehicle observed only at ticks, in any number of zones, `complete` holds if and only if it was observed, there are as many rows as ticks, and every missing tick lies outside the observed ones within a millisecond of an edge of the day |
| Coverage.ExtraZonesMakeUp | batch/spark_reconcile.py:101-110 | there are as many rows as ticks if and only if the rows beyond the first at a tick make up for the missing ticks |
| Coverage.NoTickMissingIsComplete | batch/spark_reconcile.py:101-113 | in any number of zones, a day with a tick and none missing is complete |
| Coverage.TwoZonesHideMidnight | batch/spark_reconcile.py:101-113 | on every real day with ticks every eight hours, a second zone at one tick hides the missing midnight tick |
| Coverage.TieOrderIsIrrelevant | batch/spark_reconcile.py:101-110 | however the time-ordered window breaks ties, the verdict depends on the set of observations alone |
| Coverage.FillCoverage | batch/spark_reconcile.py:107-117 | observed vehicles get their verdict, every other known vehicle an explicit unknown |
| DayCoverage.CoverageExactly | batch/spark_reconcile.py:58-117 | in every computed report the observations of a known vehicle are its distinct pairs of time and zone among the clean events of the day, and it is complete if and only if the first and last lie within a tick and a millisecond of the edges of the UTC day, no two neighbours are more than one and a half ticks apart, and there are at least as many as ticks in that day |
| DayCoverage.CompleteExactlyAtEveryTick | batch/spark_reconcile.py:58-113 | on a day with a tick, for a vehicle whose clean events lie at ticks and in one zone, complete means a clean event at every instant 1 March 2026 plus k times the interval, stretched to the simulated day, inside the day |
| Parity.SameTripsExactly | common/domain.py:104-112 | on a day without id clashes that `reconcile` accepts, both formulations count the same trips if and only if no trip has completions that disagree, zone included |
| Parity.AggregateMatchesReconcile | batch/spark_reconcile.py:83-130 | on such a day, fully covered, the aggregation gives every known vehicle, with or without costs, the reference's row if and only if no trip is disputed |
| Parity.ReferenceIsRowsWithActivity | common/domain.py:113-128 | the reference's report is then exactly the aggregated rows with a trip or a cost |
| Parity.ZoneDisagreementSplitsThePaths | common/domain.py:105-108 | completions that differ only in zone are accepted by `reconcile` and excluded by the aggregation |
| DayInputs.OneRowPerKnownVehicle | common/domain.py:67-91 | every computed report has exactly one row per known vehicle, in order |
| DayInputs.ReportedRowsAreHonest | batch/reconcile.py:116-128 | in every computed report the status of a row is the first obstacle (conflict, coverage, costs), the stored coverage agrees with it, vehicles named by the conflict ledger are withheld, and a profit is shown exactly on complete rows and equals revenue minus costs |
| ReportLaws.ComputedExactly | batch/reconcile.py:96-122 | there is a report if and only if date and expense file can be read, the file has rows, the share of rows that are not flawless is at most the threshold, and every archived event lies on the day and belongs to a known vehicle |
| ReportLaws.CostsAreShown | batch/spark_reconcile.py:120-124 | a report row shows the costs of the vehicle's flawless expense row, or none if there is none |
| ReportLaws.WithheldExactly | batch/reconcile.py:107-128 | a row is withheld as conflicting if and only if a conflict row names the vehicle, or an event of it has a conflicting id or is a clean completion of a disputed trip |
| DayInputs.FingerprintCoversComputation | batch/reconcile.py:68-76 | over an intact archive without bare day files the report computed from the objects is a function of the fingerprinted inputs |
| DayInputs.SamePathsExactly | batch/reconcile.py:70-72 | the files verified and read for a day are the fingerprinted ones if and only if no manifest lists a bare file named like the day |
| DayInputs.BareDayFileEscapesFingerprint | batch/reconcile.py:70-72 | with such a file, two worlds with the same fingerprinted inputs pass verification and one day is refused while the other is computed |
| ArchivedReports.SnapshotsStayVerified | common/archive.py:54-80 | a ledger snapshot of a reachable archive passes verification for every day in every later state of the archive |
| ArchivedReports.WritersFingerprintWhatIsRead | batch/reconcile.py:70-72 | over any reachable archive the files read for a day are exactly the fingerprinted ones: no modelled writer commits a bare day file |
| ArchivedReports.SkipIsSoundOverArchive | batch/reconcile.py:68-92 | over any reachable archive, however far it moved since the snapshot, "unchanged" means that recomputing would give the stored rows |
| Publication.ManifestMatches | common/publication.py:36-52 | true exactly when every promised format has a safe path, the right suffix and the promised bytes |
| Publication.MatchesExactly | common/publication.py:36-52 | the check passes exactly if the manifest promises json, csv, html and parquet, each under a relative path without "..", with that suffix and the promised bytes |
| Publication.SuffixExactly | common/publication.py:22-47 | the suffix is what follows the last dot if something stands on both sides of it |
| Publication.BuildExportManifest | common/publication.py:19-33 | succeeds exactly when every format has a readable file, and describes the last path given per format |
| Publication.MatchesIffUnchanged | common/publication.py:19-52 | a built manifest matches a later tree if and only if each promised file is there with the same bytes |
| Reports.TargetsDiffer | batch/reconcile.py:152-193 | no two days or formats share a report file |
| Reports.DayMatchesIffUnchanged | batch/reconcile.py:77-81 | the stored manifest of a day matches if and only if its four files keep their bytes |
| ReportProof.OtherDaysStay | batch/reconcile.py:38-50 | steps of one day's worker, and recovery of stalled runs, change no rows, status, files or successful run of another day |
| ReportProof.StepKeepsInv | batch/reconcile.py:93-229 | every step of the publication keeps rows, status, manifest, files and run record of every day consistent |
| ReportProof.RunKeepsInv | batch/reconcile.py:93-229 | so does every interleaving of workers of different days with failures and crashes between any two steps |
| ReportProof.PublishedMeansConsistent | batch/reconcile.py:129-222 | in every reachable state a published date has a manifest that its four files match, rendered from the stored rows by the same successful run; any other date with rows is pending without a manifest |
| ReportProof.RefusedRunChangesNothing | batch/reconcile.py:98-128 | a run whose inputs fail the quality gate or any other check leaves rows, status and files of its day unchanged, whatever other days do meanwhile |
| ReportProof.SkipIsSound | batch/reconcile.py:78-92 | when a run is skipped as unchanged, the stored rows are what recomputing from the current files, conflicts and settings gives |
| CatchUp.DayIsARun | batch/reconcile.py:38-229 | an undisturbed daily run is a run of the publication steps that concerns no other day |
| CatchUp.NextAnswer | batch/reconcile.py:78-92 | a day that was just published is unchanged next time; any other day gives the same answer again |
| CatchUp.QuietDay | batch/reconcile.py:86-92 | a run that does not publish changes nothing but run records |
| CatchUp.DaysDescend | batch/reconcile.py:240-260 | the days visited are exactly those with an expense file and every simulated day from 1 March 2026 up to the day before the newest event, each at most once, newest first |
| CatchUp.SweepPublishes | batch/reconcile.py:257-267 | a sweep publishes exactly the first min(budget, n) of its n publishable days however many others fail, wait or are unchanged, and leaves exactly the rest publishable |
| CatchUp.SweepReportsFailures | batch/reconcile.py:257-272 | the failed days are exactly the broken ones among those visited, and days stay unvisited only when the budget is used up |
| CatchUp.QuietSweep | batch/reconcile.py:257-272 | without publishable days a sweep changes no rows, no status and no file |
| CatchUp.CallPublishes | batch/reconcile.py:234-272 | one call publishes the first min(budget, n) stale days and keeps the invariant |
| CatchUp.CallsPublish | batch/reconcile.py:234-272 | after k calls with fixed inputs exactly the stale days beyond the first k budgets remain |
| CatchUp.CeilCallsPublishAll | batch/reconcile.py:234-272 | ceil(n / budget) calls publish every stale day and the next call changes no report |
| CatchUp.OrphansAfterDay | batch/reconcile.py:38-50 | stalled runs of a day are closed when its run returns and still running when it raises; only orphans closed before are superseded |
| CatchUp.OtherRunsStay | batch/reconcile.py:45-50 | run records of other days are not touched |
| CatchUp.WaitsExactly | batch/reconcile.py:55-61 | a day waits if and only if the newest committed event lies on it or before it, or there is none |
| CatchUp.OnlyPastDaysArePublished | batch/reconcile.py:55-61 | after any calls over a growing archive every date with a report lies strictly before the day of the newest event |
| CatchUp.CallClosesStalled | batch/reconcile.py:243-250 | once anything was committed a call closes every stalled run |
| ReportProof.OwnDayBegins | batch/reconcile.py:86-149 | skipping, starting a run and replacing a day keep its rows, status, run record and worker consistent |
| ReportStore.Store.WriteExports | batch/reconcile.py:150-213 | the four files in order, nothing else |
| ReportStore.Store.PublishDay | batch/reconcile.py:214-222 | the manifest of the day's files and the success of the run are recorded together |
| ReportStore.Store.ComputeDay | batch/reconcile.py:98-128 | verification, parsing, gate and aggregation succeed exactly when the specified computation does, with its report |
| ReportStore.Store.IsCurrent | batch/reconcile.py:78-81 | true exactly when the inputs are the stored ones, the date is published and its files match |
| ReportStore.Store.TrackedRun | batch/reconcile.py:93-229 | publishes the computed report, or closes its run as failed and changes nothing else |
| ReportStore.Store.RunDay | batch/reconcile.py:38-229 | outcome and next state are the specified ones; a day without a live worker waits exactly if there is no committed event after it, so that every published or unchanged day lies strictly before the day of the newest one |
| ReportStore.Store.RunAvailable | batch/reconcile.py:234-272 | the loop with its budget performs exactly the specified sweep and reports its published and failed days |
| ReportStore.CallsStaySound | batch/reconcile.py:129-222 | after any number of calls every published date has rows and matching files |

## Left out

- ArchiveStore.Archive.RepairGap: the consumer, its poll deadline and the paging of the identity lookups are not modelled; messages arrive in some order.
- ReportStore.Store.RunDay: an undisturbed run; failing and crashing between any two steps is in the step relation of `Reports`.
- The quarantine tables of expenses and of raw records, dead letters, and the counters of run records.
- Row counts compared against the micro-batch size in the raw writer, which cannot differ in the model.
- Trace ids, time-of-day buckets, ingest times, alert payloads and the number of idle minutes.
- The zone stored with a coverage verdict: Spark takes any of the vehicle's zones of that day, and no figure depends on it; a recomputed report may name another one.
- Margin percentages and their rounding, and the approximate vehicle count per zone.
- Field validation of events, decimal and CSV parsing, rendering of the four export formats, and the calendar: parameters or predicates on the input.
- Window metrics computed by Spark, watermarks, and the engines of Spark, Kafka, PostgreSQL, MinIO and Parquet.
- `restore_archive_batch`, which replaces a committed root on purpose and without the writer lock, and the other operational scripts.
- The API, the dashboard, monitoring, Airflow and deployment.
