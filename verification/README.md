# A verified model of a durable notification engine

This project models the protocols of a notification engine in Dafny and proves what they promise over every
run. The engine keeps its state in SQL tables; workers remember rows they read earlier and act on them with
single-row compare-and-set updates, unique-key inserts and serializable transactions.

Three forms occur throughout. A *store class* holds the tables as fields; its methods follow the engine
statement by statement and are proved equal to a specification function. A *machine* takes these functions as
its atomic steps and lets any number of workers interleave, crash and lose leases; its theorems quantify over
all action sequences. A *processor class* is the sequential worker code; between any two store calls it lets an
arbitrary script of rivals run, and its methods prove that the whole execution is a run of the machine, so the
machine's theorems hold for the code. Where a contract begins with `old(script) == []`, nobody else moves during
the call; there the contract says outright, column by column, when the call succeeds and what it leaves. The
`Timing` modules say when a claim goes through and how long it keeps others away.

| area | files |
|---|---|
| template publication | `TemplateModel`, `TemplateStore`, `PublicationMachine`, `PublicationInvariants`, `PublicationSafety`, `PublicationTiming`, `PublicationOutcomes`, `PublicationProcessor` |
| published-template cache | `CatalogCache`, `TemplateManager` |
| event queue and mailbox rows | `Leases`, `AlertFolding`, `EventTables`, `EventMachine`, `EventSafety`, `EventResults`, `EventCrossings`, `EventTiming`, `EventProcessor`, `Users` |
| channel plans and digests | `PlanQueue`, `PlanSafety`, `PlanTiming`, `DigestBatches`, `DeliveryOutcomes`, `DeliveryProcessor`, `Escalation` |
| delivery policy | `Reservations`, `DeliveryPolicy`, `QuietHours` |
| mailbox listing and time text | `TextOrder`, `MailboxPaging`, `Timestamps` |
| migration, retention, portability | `Migration`, `Retention`, `RetentionSafety`, `RetentionRace`, `Portability`, `PortabilitySafety` |
| event compilation | `Compiler` |

`dafny verify dfyconfig.toml` checks everything.

## Assumptions

- One workspace, except where rows of other workspaces matter (`Portability`, `DigestBatches`).
- Time is an integer number of nanoseconds; `Timestamps` proves that the stored text has the same order.
- Hashes are injective: a digest is represented by what it hashes, a generated id by its parts.
- Every committed write of a template record gets a later `updated_at` than the record had; for the catalog's
  revision, later than every earlier write.
- A claim is one step for its UPDATE and another for the SELECT that reads the row back. Two workers may
  therefore hold snapshots with the same token; the theorems hold all the same.
- Retention may purge any event, failure, plan, item or group row between any two steps of the event machine, and
  any plan row in the plan machine. Retention selects rows by status and deletes them by id in a later statement,
  so this includes every purge it makes (`RetentionRace`) and some it does not. The theorems hold for all of them,
  and the runs that show a loss purge only rows that retention selects. A row inserted again under a purged id is a
  new *insertion*; the machines count insertions in a history that decides no step.
- In `RetentionRace`, whatever is written while a batch runs is stamped later than the row was, later than the
  batch's cutoff and later than every copy archived under its id.
- Alerts and only alerts share a group key, and event ids do not begin with `group:`. `PlainEventKeepsMirrorIff`
  says exactly what an event without alert state does to the mirror.
- `worker.RetryPolicy` is an arbitrary pair of functions, dispatchers and audience resolvers are arbitrary
  outcomes, and template validation is an arbitrary predicate.
- A store error other than those modelled appears as a crash of the worker.
- Text arrives trimmed, and exported rows are sorted by some asymmetric order of their JSON text.

## What the proofs found

These are places where the code does less than one might expect. Each has a lemma with the exact condition or a
concrete run.

- Cancelling an approved request records the canceller as reviewer, so an author who cancels becomes the
  reviewer of their own request (`CancellationKeepsSecondPersonIff`, `AuthorCanReviewByCancelling`).
- A refused publication request is explained by a query after the rollback. If the refusing request has ended by
  then, the caller gets the plain lock error instead of the conflict (`RefusedLockIsConflictIff`,
  `PlainErrorAfterCancellation`).
- With several writing processes, or a write between the revision query and the listing, the catalog shortcut
  can keep a disabled template; it is right exactly when the sizes agree (`SkipIsRightIffSizesAgree`,
  `MixedWritersKeepDeadEntry`, `OverlappedReloadKeepsDeadEntry`).
- Retention ends the queue's promises. A purged event is created again when its producer repeats itself
  (`RepublishReturnsStoredUntilPurged`, `CreatedOncePerPurge`). A plan or failure row that outlives its purged
  event blocks the event inserted again under the same id, although it holds its lease (`MaterializeCommitsIff`,
  `LeftoverPlanBlocks`, `RepublishedEventIsStuck`, `FailureCommitsIff`, `LeftoverFailureBlocks`,
  `RepublishedFailureIsStuck`). A snapshot of a purged event or plan can hold the lease of the row inserted after
  it (`OldSnapshotHoldsReinsertedRow`, `OldSnapshotEndsReinsertedPlan`, both modules' `OldSnapshotRun`); what it
  then records keeps every count and may spoil the order of attempts (`CrossingFailureIsInPlaceIff`).
- An acknowledged item is purged before its group; a late, older alert then fires in the item but not in the
  group, and acknowledging it conflicts until the next newer alert (`AcknowledgeConflictsIff`,
  `LateAlertAfterPurgeConflicts`, `NewAlertHeals`).
- A group's inbox item carries only its newest event, so escalation plans of a firing event are not cancelled
  by the event that resolves the alert (`TerminalIff`, `ResolvedAlertStillEscalates`).
- A digest's reservation id contains its next attempt time, so its retry is not the replay an immediate plan's
  retry is (`DigestRetryReservesAgain` against `ImmediateRetryIsFree`), while several batches of one digest in one
  pass share one reservation (`FurtherBatchIsAReplayIff`).
- The retention cutoff is written without trailing zeros and compared with fixed-width text; it reaches up to a
  second too far (`CutoffReaches`, `CutoffExactIff`).
- Held rows are selected again by every retention batch, so a limit's worth of them stalls the policy
  (`PurgeStallsIff`, `BatchStallsIff`, `StalledBatchRepeats`).
- Retention deletes by id what it selected earlier by status: an item set firing in between is deleted, and its
  archived copy is the resolved one (`RemovedRowIsDueIff`, `ArchivedCopyIsExactIff`, `FiringItemIsDeleted`). The
  archive keeps the first copy under an id, so a row inserted again under a purged id is deleted without one.
- An import on a frozen but empty source inserts its rows before it is refused (`ImportChangesFrozenSource`).
- An export takes no lock and reads table by table; a rollback and a second freeze under the same id behind its
  back, or an import into the empty source, make it record the fingerprint of old contents or of a mixture that
  never existed (`ExportRecordsStaleIff`, `StaleExportNeedsThawOrImport`, `ExportCanRecordStaleFingerprint`,
  `ExportCanRecordMixture`, `ImportMakesExportStale`).
- Some keys of workspace tables do not name the workspace, so an exported workspace cannot be imported where another
  workspace holds such a key (`ExportImportExport`); and validation does not look for repeated rows
  (`RepeatedRowIsRefused`).
- An import commits its rows before it reconciles, and a bundle with boolean cells never reconciles between
  dialects that scan booleans differently (`ImportSucceedsIff`, `CrossDialectNeedsNoBooleans`).
- Two locales of an event type that differ only in case or separator make compilation depend on map iteration
  order (`LocaleChoiceStableIff`).

## Model

| member | source | states |
|---|---|---|
| `TemplateStore.Store.SaveDraftRow` | internal/infrastructure/persistence/database/template/record.go:149-205 | inserts a first draft, or replaces the draft of a record whose `updated_at` is the expected one; a mismatch is a conflict and changes nothing |
| `TemplateStore.Store.PublishRow` | internal/infrastructure/persistence/database/template/record.go:207-264 | one transaction: a version above the published one whose `(key, version)` is free, under the expected `updated_at`, moves the draft into `published` and adds the version row; every other case changes nothing |
| `TemplateStore.Store.DisableRow` | internal/infrastructure/persistence/database/template/record.go:266-311 | disables the record under the expected `updated_at`, otherwise nothing changes |
| `TemplateStore.Store.SyncPublished` | internal/infrastructure/persistence/database/template/record.go:22-35 | seeds every template in order and stops at the first error |
| `TemplateStore.Store.SeedPublishedTemplate` | internal/infrastructure/persistence/database/template/record.go:37-67 | a seed creates a record and its version row together or leaves an existing record alone |
| `TemplateStore.Store.CreatePublicationRequest` | internal/infrastructure/persistence/database/template/publication.go:62-93 | the insert transaction: lock row and request row together, refused by a taken lock or a used id without a trace |
| `TemplateStore.Store.TransitionPublicationRequest` | internal/infrastructure/persistence/database/template/publication.go:95-157 | the fenced status change, deleting the lock exactly when the request is no longer open |
| `TemplateStore.Store.ClaimPublicationRequest` | internal/infrastructure/persistence/database/template/publication.go:184-203 | a due request is taken with its token raised by one; any other request is untouched |
| `TemplateStore.Store.HasOpenPublicationRequest` | internal/infrastructure/persistence/database/template/publication.go:205-215 | true exactly when a pending, scheduled or publishing request of the template exists |
| `PublicationProcessor.Processor.Request` | internal/application/template/publication_processor.go:70-122 | the request call with rival steps between its reads and its write is a run of the publication machine; the stored candidate, its hash and its `draft_updated_at` are those of the draft as it stood when the call began. When nobody else moves it succeeds if and only if there is a draft at the expected version, no open request, a schedule in the future and a new id; then exactly one pending request and its lock are added, otherwise nothing changes |
| `PublicationProcessor.Processor.ExplainRefusal` | internal/infrastructure/persistence/database/template/publication.go:76-85 | the query after a rolled-back insert, with rivals in between: a conflict if and only if an open request is found then |
| `PublicationProcessor.Processor.Approve` | internal/application/template/publication_processor.go:124-154 | the author is refused and nothing changes; an approved request has an author other than the approver and a schedule; a run of the machine. When nobody else moves it succeeds if and only if the request is pending and not the actor's own; then only its review columns change, and a request without a schedule is scheduled for now |
| `PublicationProcessor.Processor.Reject` | internal/application/template/publication_processor.go:156-176 | an empty reason and the author are refused and nothing changes; a run of the machine. When nobody else moves it succeeds if and only if the request is pending and not the actor's own; then only its review columns change and its lock goes |
| `PublicationProcessor.Processor.Cancel` | internal/application/template/publication_processor.go:178-194 | a run of the machine. When nobody else moves it succeeds if and only if the request is pending or scheduled; then only its review columns change and its lock goes |
| `PublicationProcessor.Processor.Process` | internal/application/template/publication_processor.go:220-228 | claim, read back and publish under arbitrary interference is a run of the machine, from any worker and after any crash. A request that is not due is left alone; when nobody else moves a due one is taken under the next token and carried to its end, table by table |
| `PublicationProcessor.Processor.ProcessDue` | internal/application/template/publication_processor.go:196-218 | the loop over due requests keeps the whole execution a run of the machine. When nobody else moves every listed request that is due at its turn is carried to its end, nothing else changes, and the result counts these |
| `PublicationProcessor.Processor.PublishClaimed` | internal/application/template/publication_processor.go:248-290 | authorization, inspection, takeover, publication and recovery, with rivals between any two store calls: without permission the request can only end failed. When nobody else moves its end is decided outright: failed as revoked with no record touched; adopted when its content is already published; superseded when the draft has changed; otherwise, if valid, published, the draft becoming the record's published template and one new version row under the next number |
| `PublicationProcessor.Processor.InspectRecord` | internal/application/template/publication_processor.go:260-273 | a claimed request is adopted, superseded or published depending on the record read |
| `PublicationProcessor.Processor.RecoverPublished` | internal/application/template/publication_processor.go:274-289 | after a failed publish call a published version with the approved content is adopted, anything else fails the request; when nobody else moves the one or the other happens by what the record then holds |
| `PublicationProcessor.Processor.CommitPublication` | internal/domain/template/service/manager.go:155-190 | the publish transaction, fenced only by the draft `updated_at`, as one machine step; when nobody else moves a draft that is still the approved one is committed under the next number if and only if it names a key and a reviewer |
| `PublicationProcessor.Processor.Finish` | internal/application/template/publication_processor.go:292-305 | the finishing transition carries the token that was read; when nobody else moves a held request ends as asked, and lease and lock go |
| `PublicationSafety.AtMostOneVersionPerRequest` | internal/application/template/publication_processor.go:248-290 | over every interleaving no request commits two versions, and each commit raises the published version |
| `PublicationSafety.WorkerStepVersions` | internal/infrastructure/persistence/database/template/record.go:207-264 | a worker step adds a version row exactly when it logs a commit, and the row is the logged one |
| `PublicationSafety.EveryVersionRowIsLogged` | internal/infrastructure/persistence/database/template/record.go:313-325 | apart from seeds every new version row belongs to one logged commit |
| `PublicationSafety.PublishedNamesApprovedContent` | internal/application/template/publication_processor.go:264-304 | in every reachable state a published request names a version row whose content hash is the approved one |
| `PublicationSafety.ReviewedBySomebodyElse` | internal/application/template/publication_processor.go:124-154 | in every reachable state a request past pending, unless cancelled, was reviewed by somebody other than its author |
| `PublicationSafety.CancellationKeepsSecondPersonIff` | internal/application/template/publication_processor.go:178-194 | a cancellation keeps that rule if and only if the canceller is not the author |
| `PublicationSafety.AuthorCanReviewByCancelling` | internal/application/template/publication_processor.go:178-194 | a run in which an approved request ends with its author as reviewer |
| `PublicationSafety.LockedIffOneOpenRequest` | internal/infrastructure/persistence/database/template/publication.go:62-157 | in every reachable state a template is locked if and only if exactly one of its requests is open, and the lock names it |
| `PublicationSafety.RefusedLockIsConflictIff` | internal/infrastructure/persistence/database/template/publication.go:76-85 | whatever rivals do between a refused insert and the query that explains it, the caller is told of a conflict if and only if the template is then locked, by the request that refused it or by a newer one; otherwise it gets the plain lock error |
| `PublicationSafety.PlainErrorAfterCancellation` | internal/infrastructure/persistence/database/template/publication.go:76-85 | a run in which the refusing request is cancelled before the query, so the caller gets the plain lock error |
| `PublicationSafety.TerminalIsAbsorbing` | internal/infrastructure/persistence/database/template/publication.go:95-157 | terminal requests never change again over any continuation |
| `PublicationSafety.EndingReleasesLock` | internal/infrastructure/persistence/database/template/publication.go:137-157 | the step that ends a request removes its lock in the same step |
| `PublicationSafety.StaleLeaseIsInert` | internal/infrastructure/persistence/database/template/publication.go:95-157 | a finish with an outdated owner or token changes no table |
| `PublicationSafety.ClaimOutdatesSnapshots` | internal/infrastructure/persistence/database/template/publication.go:184-203 | once a claim has succeeded, a finish under any row read before it changes no table in any continuation |
| `PublicationSafety.TakeoverAdoptsCommit` | internal/application/template/publication_processor.go:260-266 | after a crash between publishing and finishing, the next worker adopts the committed version while no new draft exists |
| `PublicationSafety.CommitReadsApprovedDraft` | internal/domain/template/service/manager.go:155-190 | the compare-and-set pins the record to the draft that was approved, although a rival may have run in between |
| `PublicationSafety.RunKeepsInv` | internal/application/template/publication_processor.go:196-304 | the whole invariant over every run |
| `PublicationOutcomes.SameCandidateIff` | internal/application/template/publication_processor.go:59-68 | equal candidate hashes mean equal key, content and fallbacks, whatever the status, version and content hash |
| `PublicationTiming.ClaimTakesIff` | internal/infrastructure/persistence/database/template/publication.go:184-203 | a claim goes through if and only if the request is scheduled for a time not after now, or publishing under a lease that ran out; then it is publishing under the next token and nothing else changes |
| `PublicationTiming.LeaseKeepsOthersAway` | internal/infrastructure/persistence/database/template/publication.go:184-203 | over every run, the next claim after one that went through finds that one's lease run out |
| `PublicationTiming.ScheduleIsKept` | internal/application/template/publication_processor.go:124-154 | over every run, a request made with a schedule is first taken up, if ever, at that time or later, whoever approves it and whenever |
| `TemplateManager.PublishedRevision` | internal/infrastructure/persistence/database/template/record.go:91-103 | the number of active published records and their newest `updated_at` |
| `TemplateManager.Manager.RefreshPublished` | internal/domain/template/service/manager.go:64-100 | skip, reload or fail, with other processes writing between the revision query and the listing |
| `TemplateManager.Manager.Upsert` | internal/domain/template/service/engine.go:52-63 | an accepted template replaces the entry under its key, a refused one changes nothing |
| `TemplateManager.Manager.DropInactive` | internal/domain/template/service/engine.go:65-69 | exactly the keys that were not listed leave the catalog |
| `TemplateManager.Manager.PublishLocked` | internal/domain/template/service/manager.go:155-190 | publishes the draft it has read under its next version and enters it into the catalog, with other processes writing before the commit and between the commit and the catalog |
| `TemplateManager.Manager.Disable` | internal/domain/template/service/manager.go:192-208 | disables the record and removes its entry, with other processes writing before the commit and before the removal |
| `TemplateManager.Manager.SaveDraft` | internal/domain/template/service/manager.go:102-114 | a draft save under an open request is refused |
| `TemplateManager.Manager.RestoreVersionDraft` | internal/domain/template/service/manager.go:116-143 | an old version becomes the draft |
| `CatalogCache.EqualRevisionsMeanUntouched` | internal/domain/template/service/manager.go:64-100 | equal revisions mean that no live record was written since the listing |
| `CatalogCache.SkipIsRightIffSizesAgree` | internal/domain/template/service/manager.go:64-100 | for any mixture of writers, writes that land between this process's commit and its catalog, failed and overlapped reloads: a skipped refresh is right if and only if the catalog has as many entries as the revision counts |
| `CatalogCache.SkipKeepsEveryLiveEntry` | internal/domain/template/service/manager.go:64-100 | a skip never loses a live template: it can only keep dead ones |
| `CatalogCache.SoleWriterSkipRefinesReload` | internal/domain/template/service/manager.go:64-100 | where all writes go through one process a skip equals a full reload |
| `CatalogCache.ReplicaRefreshIsExact` | internal/domain/template/service/manager.go:64-100 | after a successful atomic refresh of a refresh-only process the catalog is exactly the active published templates |
| `CatalogCache.ReplicaRefreshRefinesReload` | internal/domain/template/service/manager.go:64-100 | over every history of writes and refreshes the shortcut and the full reload give the same catalog |
| `CatalogCache.ReloadIsExact` | internal/domain/template/service/manager.go:80-99 | an atomic reload succeeds if and only if every live template is accepted, and then leaves exactly these |
| `CatalogCache.RevisionColumns` | internal/infrastructure/persistence/database/template/record.go:91-103 | the revision counts the active published records and names the newest instant at which one of them was written; the catalog should hold exactly these, as published |
| `CatalogCache.UpsertListedExact` | internal/domain/template/service/manager.go:80-95 | the upsert loop enters every listed template, stops exactly at one that is refused, enters nothing that is refused and touches no other key |
| `CatalogCache.OverlappedReloadKeepsDeadEntry` | internal/domain/template/service/manager.go:64-100 | a write between the revision query and the listing can leave a disabled template in the catalog for good |
| `CatalogCache.MixedWritersKeepDeadEntry` | internal/domain/template/service/manager.go:64-208 | without any overlapped reload, a template published by this process and disabled by another one before the catalog is changed stays in the catalog while the revision matches |
| `AlertFolding.GroupAndItemMirror` | internal/infrastructure/persistence/database/event/materialization.go:81-173 | over every history of alerts and acknowledgements, until retention takes one of the two rows, group and item agree on state, times and last event, and their counts differ by a constant fixed by the first arrival |
| `AlertFolding.NextKeepsMirror` | internal/infrastructure/persistence/database/event/materialization.go:81-173 | each single step keeps the mirror and the difference of the counts |
| `AlertFolding.ArrivalMoves` | internal/infrastructure/persistence/database/event/materialization.go:81-173 | column by column: what an arrival makes of the group row and of the item row, and that an older one changes neither |
| `AlertFolding.AcknowledgeConflictsIff` | internal/infrastructure/persistence/database/inbox/mailbox_mutations.go:121-148 | over every history, purges included, an acknowledgement meets the lost-update branch if and only if the item fires while its group does not, which takes a purge and rows last moved by different instants |
| `AlertFolding.NewAlertHeals` | internal/infrastructure/persistence/database/event/materialization.go:81-173 | the next alert at least as new as both rows makes them agree again |
| `AlertFolding.LateAlertAfterPurgeConflicts` | internal/infrastructure/persistence/database/inbox/mailbox_mutations.go:121-148 | a history in which an acknowledged item is purged before its group, an older alert arrives late, and its acknowledgement conflicts |
| `AlertFolding.LastIsNewest` | internal/infrastructure/persistence/database/event/materialization.go:81-173 | both rows carry the newest alert time seen, whatever the arrival order |
| `AlertFolding.NewestDecides` | internal/infrastructure/persistence/database/event/materialization.go:81-173 | the newest alert decides every column but first time and counts |
| `AlertFolding.ArrivalOrderIrrelevant` | internal/infrastructure/persistence/database/event/materialization.go:81-173 | two arrival orders of the same alerts with distinct times end in the same decided columns |
| `AlertFolding.GroupCountsFiringHighs` | internal/infrastructure/persistence/database/event/materialization.go:81-121 | the group counts the firing alerts that were newest when they arrived |
| `AlertFolding.PlainEventKeepsMirrorIff` | internal/infrastructure/persistence/database/event/materialization.go:81-173 | an event without alert state under a group key keeps the mirror if and only if it is too old to touch the item |
| `EventTables.EventStore.Enqueue` | internal/infrastructure/persistence/database/event/lifecycle.go:25-53 | a new row, the stored row when the producer repeats itself, or a conflict; the unique keys on id and source decide |
| `EventTables.EventStore.EventBySource` | internal/infrastructure/persistence/database/event/lifecycle.go:226-237 | finds a row under the source key exactly when there is one |
| `EventTables.SameIngestIff` | internal/infrastructure/persistence/database/event/lifecycle.go:55-79 | two events count as the same if and only if identity, payload and every plan's identity and payload agree, whatever has become of them |
| `EventTables.EventStore.Claim` | internal/infrastructure/persistence/database/event/lifecycle.go:139-157 | takes a row if and only if it is queued with a next attempt that is blank or not after now, or processing under a lease that is not after now; then its token is raised by one |
| `EventTables.EventStore.TransitionFailure` | internal/infrastructure/persistence/database/event/lifecycle.go:169-211 | a valid stage and code and a held lease, then the row gives up its lease with one failure more and the failure row is added, or neither |
| `EventTables.EventStore.MaterializeEvent` | internal/infrastructure/persistence/database/event/materialization.go:35-79 | succeeds if and only if the lease is held and no plan id is taken or repeated; then every plan of the snapshot is stored, addressed to exactly the given recipients and otherwise as it was compiled, the event has arrived once in every recipient's group and item and nowhere else, and it ends materialized; otherwise nothing changes |
| `EventTables.EventStore.TransitionAlertGroup` | internal/infrastructure/persistence/database/event/materialization.go:81-121 | the conditional update, the lookup and the insert, column by column |
| `EventTables.EventStore.UpsertInboxItem` | internal/infrastructure/persistence/database/event/materialization.go:123-173 | the conditional update, the lookup and the insert, column by column; what the user marked stays |
| `EventTables.EventStore.InsertChannelPlans` | internal/infrastructure/persistence/database/event/materialization.go:175-187 | inserts all plan rows or reports the first taken id |
| `EventTables.EventStore.AcknowledgeAlert` | internal/infrastructure/persistence/database/inbox/mailbox_mutations.go:99-157 | a firing group and its item are acknowledged together or not at all |
| `EventTables.EventStore.UpdatePersonalState` | internal/infrastructure/persistence/database/inbox/mailbox_mutations.go:25-71 | read and archive marks change only their column and `updated_at` |
| `EventTables.EventStore.MarkAllItemsRead` | internal/infrastructure/persistence/database/inbox/mailbox_mutations.go:73-97 | marks exactly the listed unread items not updated after the given time and counts them |
| `Leases.HolderSeesTheRow` | internal/infrastructure/persistence/database/event/lifecycle.go:180-180 | a snapshot that still satisfies the finishing predicate is the current row, even when it was read after somebody else's claim |
| `EventTables.InsertedPlans` | internal/infrastructure/persistence/database/event/materialization.go:64-68 | the insert loop succeeds if and only if the ids are new and distinct, and adds exactly these rows |
| `EventSafety.RunKeepsInv` | internal/infrastructure/persistence/database/event/lifecycle.go:139-211 | the queue's invariant over every interleaving of workers, producers, mailbox users and purges of events, failures, plans, items and groups |
| `EventTiming.ClaimTakesIff` | internal/infrastructure/persistence/database/event/lifecycle.go:139-157 | in every state, on the columns: which claims go through, and that one that does changes only owner, expiry and token |
| `EventTiming.LeaseKeepsOthersAway` | internal/infrastructure/persistence/database/event/lifecycle.go:139-211 | over every run, between two claims of one insertion that go through with none in between, the first lease had run out at the second clock, or the worker had given the row back and its next attempt is not in the future |
| `EventTiming.RetryWaits` | internal/infrastructure/persistence/database/event/lifecycle.go:139-211 | over every run, a row queued for a later attempt goes to nobody before that time |
| `EventResults.StandsIffNotPurged` | internal/infrastructure/persistence/database/lifecycle/retention.go:26-30 | an inserted event stands exactly as long as no row of its source key has been purged |
| `EventResults.FinishedEventsStay` | internal/infrastructure/persistence/database/event/lifecycle.go:139-211 | materialized and failed events stay as they are exactly until they are purged; afterwards they are gone or inserted anew |
| `EventResults.CreatedOncePerPurge` | internal/infrastructure/persistence/database/event/lifecycle.go:25-53 | every source key was reported as created once for each purge of its row, and once more if it has a row |
| `EventResults.RepublishReturnsStoredUntilPurged` | internal/infrastructure/persistence/database/event/lifecycle.go:42-53 | a repeated event returns the stored row, or a conflict for another payload, until the row is purged; it is created again if and only if nothing stands under its source key or its id |
| `EventCrossings.AttemptsCountFailures` | internal/infrastructure/persistence/database/event/lifecycle.go:169-211 | in every reachable state the attempt counter is the number of failures recorded for this insertion, bounded by its token, and the number of its failure rows if and only if none has been purged; unless a snapshot of an earlier insertion has ended one of its claims, the recorded attempts are exactly 1 to that number in token order |
| `EventCrossings.CrossingFailureIsInPlaceIff` | internal/infrastructure/persistence/database/event/lifecycle.go:195-211 | the exact effect of such a crossing: a failure is recorded under the attempt after the snapshot's, which is the row's new counter if and only if both had failed equally often |
| `EventResults.FailureCommitsIff` | internal/infrastructure/persistence/database/event/lifecycle.go:195-211 | a failure report commits if and only if the lease is held and no failure row has outlived a purged event of the same id under the same token |
| `EventResults.LeftoverFailureBlocks` | internal/infrastructure/persistence/database/event/lifecycle.go:195-211 | from every state in which a first claim's failure row outlives its purged event, the event inserted again and claimed holds its lease and can record no failure |
| `EventResults.RepublishedFailureIsStuck` | internal/infrastructure/persistence/database/event/lifecycle.go:195-211 | such a run from the start: failed for good, purged with its failure row left behind, published again, claimed, and refused for every failure report |
| `EventResults.MaterializeCommitsIff` | internal/infrastructure/persistence/database/event/materialization.go:35-79 | a materialization commits if and only if the lease is held and no plan row has outlived its purged event under one of the plan ids |
| `EventResults.FirstInsertionHasNoLeftovers` | internal/infrastructure/persistence/database/event/materialization.go:35-79 | while nothing was purged under an id, nothing is left over and the lease alone decides |
| `EventResults.LeftoverPlanBlocks` | internal/infrastructure/persistence/database/event/materialization.go:64-68 | from every state in which an event's plan outlives its purge, the event inserted again and claimed holds its lease and still cannot be materialized |
| `EventResults.RepublishedEventIsStuck` | internal/infrastructure/persistence/database/event/materialization.go:64-68 | such a run from the start: delivered, purged with its plan left behind, published again, claimed, and refused for every audience |
| `EventCrossings.PlanRowsIffMaterialized` | internal/infrastructure/persistence/database/event/materialization.go:56-79 | this insertion's plan row is stored if and only if the event is materialized, its delivery stored a plan of that id, and the row has not been purged; every delivery stores the plans of its snapshot, all of the event's own unless an earlier insertion's snapshot made it; any other row under the id is left over from an earlier insertion |
| `EventResults.OneEndPerToken` | internal/infrastructure/persistence/database/event/lifecycle.go:169-211 | each fencing token of an insertion ends at most one claim |
| `EventResults.HeldSnapshotIsTheRowUnlessReborn` | internal/infrastructure/persistence/database/event/lifecycle.go:180-180 | in every reachable state a snapshot that holds the lease is the current row, unless the event was purged and inserted again since |
| `EventResults.OldSnapshotHoldsReinsertedRow` | internal/infrastructure/persistence/database/event/lifecycle.go:180-180 | that exception occurs: after a purge and a first claim under the same owner, an old snapshot holds a row it has never seen |
| `EventResults.OldSnapshotRun` | internal/infrastructure/persistence/database/event/lifecycle.go:180-180 | such a run from the start: claimed by one worker, taken over and delivered by another, purged as materialized, published anew and claimed under the first owner |
| `EventResults.MailboxMirrors` | internal/infrastructure/persistence/database/event/materialization.go:81-173 | over every run of the whole queue each recipient's group and item mirror each other until one of them is purged, and an acknowledgement conflicts if and only if the item fires while its group does not |
| `EventResults.PlainItemsNeverConflict` | internal/infrastructure/persistence/database/inbox/mailbox_mutations.go:121-148 | an item outside every group never conflicts |
| `EventProcessor.InboxProcessor.ClaimEvent` | internal/infrastructure/persistence/database/event/lifecycle.go:139-159 | claim and read-back as two steps with rivals in between; a row purged in between is not claimed. When nobody else moves a row is claimed if and only if it waits, and the snapshot is the row as taken |
| `EventProcessor.InboxProcessor.DeliverEvent` | internal/application/inbox/processor.go:98-139 | delivers if and only if the audience resolves to 1 to 500 users, the lease is still held and no plan of a purged insertion is in the way; then every plan is stored addressed to the named and resolved users, blanks and repetitions removed, and the event has arrived once with each of them |
| `EventProcessor.InboxProcessor.RecordEventFailure` | internal/application/inbox/processor.go:141-154 | if and only if the lease is held and no failure row is left over under the token: queues another attempt after the policy's delay while it allows one, else fails the event; the failure row carries the attempt |
| `EventProcessor.InboxProcessor.ProcessAt` | internal/application/inbox/processor.go:84-96 | true only for a materialized event, false only without a claim or with the failure on record, an error only after losing the lease or over a failure row that outlived a purged event; the execution is a run of the machine. When nobody else moves a waiting event is taken and then delivered to its whole audience, or its failure recorded under the stage and code of what went wrong |
| `Users.UniqueUsers` | internal/domain/inbox/validation/validation.go:290-299 | the list without blanks and repetitions |
| `Users.UniqueKeepsOrder` | internal/domain/inbox/validation/validation.go:290-299 | first occurrences keep their order |
| `Users.UniqueTwice` | internal/domain/inbox/validation/validation.go:290-299 | a list made unique once stays as it is |
| `PlanQueue.PlanStore.Claim` | internal/infrastructure/persistence/database/delivery/plan_lifecycle.go:81-100 | takes a plan if and only if it is queued with a next attempt that is blank or not after now, or processing under a lease that is not after now; then its token is raised by one |
| `PlanQueue.PlanStore.TransitionPlan` | internal/infrastructure/persistence/database/delivery/plan_lifecycle.go:160-181 | a valid code and a held lease, then the columns of the ending that was asked for, or nothing |
| `PlanQueue.PlanStore.CompletePlanBatch` | internal/infrastructure/persistence/database/delivery/plan_lifecycle.go:132-156 | all plans of a batch become planned if and only if they belong to one workspace and are distinct and held; otherwise none does |
| `PlanSafety.EachTokenEndsOnce` | internal/infrastructure/persistence/database/delivery/plan_lifecycle.go:160-181 | over every run, purges included, each token of an insertion ends at most one claim, failed attempts never outnumber tokens, and an id was inserted once for each purge and once more if it has a row |
| `PlanSafety.FinishedPlansStay` | internal/infrastructure/persistence/database/delivery/plan_lifecycle.go:160-181 | planned, failed and cancelled plans stay as they are exactly until they are purged |
| `PlanSafety.StaleSnapshotIsInert` | internal/infrastructure/persistence/database/delivery/plan_lifecycle.go:160-171 | a snapshot of the stored insertion holds the lease if and only if it is the row; one that does not hold it changes nothing, alone or in a batch |
| `PlanSafety.OldSnapshotEndsReinsertedPlan` | internal/infrastructure/persistence/database/delivery/plan_lifecycle.go:160-171 | after a purge and a first claim under the same owner a snapshot of the purged plan ends the new one |
| `PlanSafety.OldSnapshotRun` | internal/infrastructure/persistence/database/delivery/plan_lifecycle.go:160-171 | such a run from the start: claimed by one worker, taken over and completed by another, purged as planned, inserted anew, claimed under the first owner, and ended by the first worker |
| `PlanSafety.RunKeepsInv` | internal/infrastructure/persistence/database/delivery/plan_lifecycle.go:81-181 | the plan queue's invariant over every interleaving of workers, batches and purges |
| `PlanTiming.ClaimTakesIff` | internal/infrastructure/persistence/database/delivery/plan_lifecycle.go:81-100 | in every state, on the columns: which claims go through, and that one that does changes only owner, expiry and token |
| `PlanTiming.LeaseKeepsOthersAway` | internal/infrastructure/persistence/database/delivery/plan_lifecycle.go:81-181 | over every run, between two claims of one inserted plan that go through with none in between, the first lease had run out at the second clock, or the worker had given the plan back and its next attempt is not in the future |
| `PlanTiming.WaitingPlanWaits` | internal/infrastructure/persistence/database/delivery/plan_lifecycle.go:81-181 | over every run, a plan that waits for its digest window or its retry goes to nobody before that time |
| `DigestBatches.DigestCandidates` | internal/application/delivery/processor.go:231-248 | the unconsumed plans that share every dispatch column with the first, in order, all of them or as many as the normalized maximum allows |
| `DigestBatches.SameRecipients` | internal/application/delivery/processor.go:250-260 | equality of recipient lists, order included |
| `DigestBatches.PassPartitionsDuePlans` | internal/application/delivery/processor.go:52-89 | a pass over distinct plans handles each exactly once, and every batch leads with its trigger, shares its whole dispatch identity and keeps to the maximum |
| `DigestBatches.BatchIsFull` | internal/application/delivery/processor.go:231-248 | a batch is short of its maximum only when no other due plan could join |
| `DeliveryProcessor.Processor.ClaimDeliverable` | internal/application/delivery/processor.go:120-137 | claims, and cancels instead when the action is terminal; when nobody else moves exactly that, on the one row, if the plan can be claimed |
| `DeliveryProcessor.Processor.ProcessImmediate` | internal/application/delivery/processor.go:102-118 | true only when the plan is planned under the dispatched message; the execution is a run of the plan machine. When nobody else moves a plan that can be claimed is cancelled, sent, or put back for its next attempt or failed, by the action test, the dispatcher and the policy |
| `DeliveryProcessor.Processor.ProcessDigest` | internal/application/delivery/processor.go:139-167 | a positive count means that all claimed plans of the batch are planned under the one dispatched message. When nobody else moves every plan that can be claimed is cancelled if pointless and otherwise shares the fate of that message, and no other plan changes |
| `DeliveryProcessor.Processor.RecordPlanFailure` | internal/application/delivery/processor.go:221-229 | if and only if the plan is held: retries with the policy's delay while it allows one, or fails |
| `DeliveryProcessor.Processor.ProcessDue` | internal/application/delivery/processor.go:52-89 | the calls made are the schedule, or a prefix of it when one of them fails. When nobody else moves none fails, each does to the table what it should, and the result counts the planned plans |
| `DeliveryOutcomes.PassSettles` | internal/application/delivery/processor.go:52-89 | what such a pass does to a stored plan: a listed plan that can be claimed is settled under one new token, every other one stays as it is |
| `DeliveryOutcomes.DeliverableFacts` | internal/application/delivery/processor.go:139-167 | the plans of a batch's message are those that can be claimed and are not pointless, in order and each once |
| `Escalation.TerminalIff` | internal/infrastructure/persistence/database/delivery/plan_lifecycle.go:103-114 | in every reachable state a plan's action is terminal if and only if some recipient's item still carries the plan's event, that is, no later-or-equal event has reached it since, and every such item has no open action and, if the event fires, is acknowledged |
| `Escalation.CarriesIffStillNewest` | internal/infrastructure/persistence/database/event/materialization.go:123-173 | an item carries an event if and only if nothing newer came before the event's arrival and everything after it was strictly older |
| `Escalation.ResolvedAlertStillEscalates` | internal/infrastructure/persistence/database/delivery/plan_lifecycle.go:103-114 | over every run: once a later event of the group has reached everybody who still carried the firing one, resolution included, the firing event's plans never count as terminal again unless it is purged and inserted anew |
| `Reservations.ReservationStore.ReserveBatch` | internal/infrastructure/persistence/database/delivery/policy.go:200-255 | a whole batch or nothing, with the error of the first refused reservation; which those are is the subject of `NewIsRefusedIff` and `OldOrMalformed` |
| `Reservations.ReservationStore.ReserveOne` | internal/infrastructure/persistence/database/delivery/policy.go:210-253 | replay, quota, dedupe and insert of one reservation |
| `Reservations.ReservationStore.AlreadyRecorded` | internal/infrastructure/persistence/database/delivery/policy.go:257-276 | recorded, unknown, or an identity conflict |
| `Reservations.NewIsRefusedIff` | internal/infrastructure/persistence/database/delivery/policy.go:210-253 | a well-formed reservation under a new id is refused for frequency if and only if the recipient's stored rows in that channel from the last hour reach the limit, otherwise as a duplicate if and only if an equal delivery lies in the dedupe window, and otherwise exactly its row is appended |
| `Reservations.OldOrMalformed` | internal/infrastructure/persistence/database/delivery/policy.go:210-276 | a reservation on record is replayed or, under another identity, a conflict; one without id, recipient or readable time is refused |
| `Reservations.PlacesAreGiven` | internal/infrastructure/persistence/database/delivery/policy.go:200-255 | different, well-formed deliveries are accepted in full, row for row, while each recipient's rows in a channel and the batch together stay within the limit |
| `Reservations.FirstPlacesAreGiven` | internal/infrastructure/persistence/database/delivery/policy.go:200-255 | over any number of calls the first deliveries of every recipient and channel, up to the limit, are all accepted and stored in order |
| `Reservations.QuotaAndDedupeHold` | internal/infrastructure/persistence/database/delivery/policy.go:200-255 | under a fixed policy no closed one-hour window exceeds the limit and equal deliveries are more than the dedupe window apart, for any order of clocks |
| `Reservations.ReplaySucceeds` | internal/infrastructure/persistence/database/delivery/policy.go:257-276 | repeating an accepted batch succeeds and changes nothing, however much later and under any policy |
| `Reservations.RecordedReplays` | internal/infrastructure/persistence/database/delivery/policy.go:257-276 | recorded reservations are never refused |
| `DeliveryPolicy.PolicyManager.EvaluateDelivery` | internal/domain/delivery/service/policy_manager.go:73-128 | refusals and a disabled policy reserve nothing; otherwise the reservation outcome decides |
| `DeliveryPolicy.PolicyDecides` | internal/domain/delivery/service/policy_manager.go:73-128 | malformed evaluations, opt-outs and a policy without a limit are refused, a disabled policy lets everything pass, each without a reservation; otherwise there is one reservation for each distinct recipient, all or none are made, and what passes waits for the end of quiet hours |
| `DeliveryPolicy.ImmediateRetryIsFree` | internal/domain/delivery/service/policy_manager.go:104-114 | a plan dispatched again under its own id passes again and reserves nothing |
| `DeliveryPolicy.RetryRenamesIff` | internal/application/delivery/processor.go:277-277 | a retry changes the id of a digest's aggregate if and only if it moves the next attempt, which a retry of a due plan after a positive delay always does |
| `DeliveryPolicy.DigestReserves` | internal/application/delivery/processor.go:262-279 | a digest reserves one place for each distinct recipient of its first plan, under that plan's template, channel and dedupe key and an id made of its digest key and next attempt |
| `DeliveryPolicy.DigestRetryReservesAgain` | internal/application/delivery/processor.go:262-279 | a digest's retry, led by any plan of its dispatch identity, is a replay that reserves nothing if the next attempt has not moved and its leader has the earlier leader's dedupe key; otherwise it is a new reservation, unless already recorded: under the same dedupe key refused within the window, and using up one more place of every quota when accepted |
| `DeliveryPolicy.FurtherBatchIsAReplayIff` | internal/application/delivery/processor.go:262-279 | several batches of one digest in one pass share their aggregate id, and to the policy they are one delivery if and only if their first plans share the dedupe key |
| `QuietHours.DeferredToWindowEnd` | internal/domain/delivery/service/policy_manager.go:148-169 | delivery is deferred if and only if a quiet window holds the instant, and then to that window's end |
| `QuietHours.DeferralIsTight` | internal/domain/delivery/service/policy_manager.go:148-169 | the end is later than now and within a day, everything until it is quiet, and it is itself quiet only when the clocks are equal |
| `QuietHours.ParseClock` | internal/domain/delivery/service/policy_manager.go:154-157 | a parsed clock is a time of day |
| `QuietHours.ParsesIff` | internal/domain/delivery/service/policy_manager.go:154-157 | exactly the texts of a clock parse, one or two hour digits, a colon and two minute digits, and to that clock |
| `QuietHours.WindowClock` | internal/domain/delivery/service/policy_manager.go:148-169 | on the local clock a window opens at the start text's time and closes at the end text's, the next day if that is not later |
| `MailboxPaging.ListItems` | internal/infrastructure/persistence/database/inbox/mailbox_queries.go:18-53 | the first page of the selected items, newest first, and whether there are more; refused without a recipient boundary |
| `MailboxPaging.List` | internal/domain/inbox/service/mailbox_manager.go:44-65 | one page and the cursor that continues it; a cursor with a blank part is refused |
| `MailboxPaging.Follow` | internal/domain/inbox/service/mailbox_manager.go:44-65 | following the cursor stops, never repeats a row, nor an id while `updated_at` never falls, never misses an untouched row even while others change, and yields exactly the filtered mailbox when nothing changes |
| `MailboxPaging.NextListing` | internal/infrastructure/persistence/database/inbox/mailbox_queries.go:171-172 | the listing after a cursor is exactly the rest of the listing |
| `MailboxPaging.ListingFacts` | internal/infrastructure/persistence/database/inbox/mailbox_queries.go:142-175 | the listing is the selected rows, strictly newest first |
| `MailboxPaging.ListedIff` | internal/infrastructure/persistence/database/inbox/mailbox_queries.go:142-175 | column by column: an item is listed if and only if it is in the mailbox asked for, matches every filter, and is older than the cursor |
| `MailboxPaging.NewestComesFirst` | internal/infrastructure/persistence/database/inbox/mailbox_queries.go:28-28 | of two listed items the one further up was updated later, or at the same time under a greater id; `Timestamps.TimestampOrder` makes text order time order |
| `TextOrder.StrictTotalOrder` | internal/infrastructure/persistence/database/inbox/mailbox_queries.go:28-28 | the byte order of text columns is a strict total order |
| `Timestamps.TimestampOrder` | internal/domain/notification/model/time.go:5-11 | byte order of stored timestamps is time order for every nanosecond of the years 0 to 9999 |
| `Timestamps.CivilOf` | internal/domain/notification/model/time.go:9-11 | every instant has exactly the calendar fields whose instant it is |
| `Timestamps.EarlierIffBefore` | internal/domain/notification/model/time.go:7-7 | field order, most significant first, is instant order |
| `Timestamps.DatesAreGregorian` | internal/domain/notification/model/time.go:7-11 | the calendar behind the stored text has exactly the dates of the proleptic Gregorian one |
| `Timestamps.DaysAreNumbered` | internal/domain/notification/model/time.go:7-11 | its days are numbered without gap from the first day of year 0: the day after any date has the next number |
| `Timestamps.YearStartClosed` | internal/domain/notification/model/time.go:7-11 | years are added up with a day more for every fourth one, except centuries that 400 does not divide |
| `Timestamps.TimestampReads` | internal/domain/notification/model/time.go:5-11 | a stored timestamp reads back, digit field by digit field, as the calendar fields of its instant, between the marks of the layout |
| `Timestamps.DigitsOrder` | internal/domain/notification/model/time.go:7-7 | fixed-width decimal text is ordered like its number |
| `Timestamps.CutoffReaches` | internal/infrastructure/persistence/database/lifecycle/retention.go:195-209 | the retention query admits an instant if and only if it lies before the cutoff plus one unit of the cutoff's last written digit, a full second when it has no fraction |
| `Timestamps.CutoffExactIff` | internal/infrastructure/persistence/database/lifecycle/retention.go:195-209 | the query is exact if and only if the cutoff's last nanosecond digit is not zero |
| `Migration.ControlStore.FreezeMigration` | internal/infrastructure/persistence/database/portability/control.go:57-86 | freezes an active workspace, repeats idempotently, refuses every other state |
| `Migration.ControlStore.RecordImportedMigration` | internal/infrastructure/persistence/database/portability/control.go:92-110 | inserts the imported row; any existing row refuses it |
| `Migration.ControlStore.TransitionMigration` | internal/infrastructure/persistence/database/portability/control.go:120-144 | the guarded update with its fingerprint rule |
| `Migration.FrozenIff` | internal/infrastructure/persistence/database/portability/control.go:57-86 | a step freezes the workspace if and only if it is a freeze command under the lock that names a migration while the workspace is active; it is then a source without a fingerprint |
| `Migration.ImportedIff` | internal/infrastructure/persistence/database/portability/control.go:92-110 | a step makes it imported if and only if an import finishes without finding a control row; it is then a target under the fingerprint of what was imported |
| `Migration.CutoverIff` | internal/infrastructure/persistence/database/portability/control.go:112-144 | a step cuts it over if and only if it is an activation under the lock that names the migration and fingerprint of an imported target; only the state changes |
| `Migration.RolledBackIff` | internal/infrastructure/persistence/database/portability/control.go:116-144 | a step makes it active again if and only if it is a rollback under the lock that names the migration, and the fingerprint if there is one, of a frozen source |
| `Migration.LockIff` | internal/assembly/module/binding.go:189-204 | a command gets the lock if and only if nobody reads, writes or commands; a writer if and only if nobody commands |
| `Migration.WritesIff` | internal/assembly/module/binding.go:189-204 | a writer goes on if and only if the workspace is neither frozen nor imported |
| `Migration.ImportStoresIff` | internal/assembly/module/services.go:76-105 | an import stores its rows if and only if the workspace is empty or already holds exactly them, and they are not on record yet |
| `Migration.ImportedAndActivated` | internal/assembly/module/services.go:76-131 | a run from the start: rows imported into an empty workspace, activated, cut over with these rows and their fingerprint, and so for good |
| `Migration.NoWriterWhileFrozen` | internal/assembly/module/binding.go:189-204 | over every interleaving no guarded writer is in flight while the state is frozen or imported |
| `Migration.FrozenStepChangesIff` | internal/assembly/module/services.go:76-105 | a step from a frozen or imported workspace changes its tables if and only if it imports into an empty one |
| `Migration.FrozenTablesStay` | internal/assembly/module/services.go:36-131 | from a freeze until the next rollback the tables do not change, that exception aside |
| `Migration.ImportChangesFrozenSource` | internal/assembly/module/services.go:76-105 | a run in which an import changes a frozen, empty source and is refused only afterwards |
| `Migration.CutoverIsAbsorbing` | internal/infrastructure/persistence/database/portability/control.go:112-144 | no command changes the control row after a cutover, a state that is reached (`CutoverIff`, `ImportedAndActivated`) |
| `Migration.FingerprintStays` | internal/infrastructure/persistence/database/portability/control.go:88-144 | a recorded fingerprint stays until the workspace is frozen anew |
| `Migration.ExportIsFaithful` | internal/assembly/module/services.go:49-74 | an export, interrupted before each table it reads and before it records by anything but a rollback or such an import, records the fingerprint of quiescent, current tables |
| `Migration.ExportRecordsStaleIff` | internal/assembly/module/services.go:49-74 | an export reads its tables one after another; whatever others do in between, it records the fingerprint of other rows than the current ones if and only if the source is then frozen under the migration that was read, with a blank or equal fingerprint, and the bundle put together from the tables as they were is not what is stored |
| `Migration.StaleExportNeedsThawOrImport` | internal/assembly/module/services.go:49-74 | that needs an import into an empty workspace, or a rollback followed by a freeze under the same id, since the export started |
| `Migration.ExportCanRecordStaleFingerprint` | internal/assembly/module/services.go:49-74 | a run in which a rollback and a second freeze under the same id make an export record outdated contents |
| `Migration.ExportCanRecordMixture` | internal/infrastructure/persistence/database/portability/portable.go:83-145 | a run in which the same happens after the first table is read: the export records a mixture of old and new tables that the workspace never held |
| `Migration.ImportMakesExportStale` | internal/assembly/module/services.go:49-105 | a run in which nobody rolls back: an import into the frozen, empty source between reading and recording makes the recorded fingerprint outdated |
| `Retention.RetentionStore.RetentionHeld` | internal/infrastructure/persistence/database/lifecycle/retention.go:216-226 | true exactly when some hold applies |
| `Retention.RetentionStore.ArchiveCandidate` | internal/infrastructure/persistence/database/lifecycle/retention.go:228-284 | adds one archive entry unless it exists or the row is gone |
| `Retention.RetentionStore.ProcessCandidate` | internal/infrastructure/persistence/database/lifecycle/retention.go:154-191 | spare, archive, purge, with their counters |
| `Retention.RetentionStore.ProcessRetentionSpec` | internal/infrastructure/persistence/database/lifecycle/retention.go:113-193 | one table's candidates in order |
| `Retention.RetentionStore.ProcessRetentionBatch` | internal/infrastructure/persistence/database/lifecycle/retention.go:79-111 | every table of the policy within the shared limit |
| `RetentionSafety.DeletionsAreJustified` | internal/infrastructure/persistence/database/lifecycle/retention.go:79-193 | for a batch that nobody interrupts: scanned rows never exceed the limit; a deleted row was due, not held, not locked, and is archived |
| `RetentionSafety.EligibleIff` | internal/infrastructure/persistence/database/lifecycle/retention.go:23-41 | column by column: which rows of each table are due at a cutoff |
| `RetentionSafety.HeldIff` | internal/infrastructure/persistence/database/lifecycle/retention.go:216-226 | a row is spared if and only if a hold in force covers it, or a publication lock stands on the request that would be purged |
| `RetentionSafety.OnlyDueRowsGo` | internal/infrastructure/persistence/database/lifecycle/retention.go:79-193 | a batch deletes a row only if a due row stood under its id, nothing in force covers it and no lock stands |
| `RetentionSafety.OlderComesFirst` | internal/infrastructure/persistence/database/lifecycle/retention.go:113-146 | of two candidates the one listed first is older, or as old under a smaller id |
| `RetentionSafety.PolicyTables` | internal/infrastructure/persistence/database/lifecycle/retention.go:23-41 | which tables each policy works through, and in which order |
| `RetentionRace.RemovedRowIsDueIff` | internal/infrastructure/persistence/database/lifecycle/retention.go:113-193 | with rivals between selecting, archiving and deleting: the selected row, when it is deleted, is still due as it then stands if and only if nobody has written to it since the selection; any other deleted row is due at most if it was there and untouched since |
| `RetentionRace.ArchivedCopyIsExactIff` | internal/infrastructure/persistence/database/lifecycle/retention.go:228-302 | of every row that a pass deletes under an archived id, in this pass or a later one, the archived copy is exact if and only if that row was stored and equal when the copy was taken and has not been written to since; a row inserted since is deleted with an older copy |
| `RetentionRace.FiringItemIsDeleted` | internal/infrastructure/persistence/database/lifecycle/retention.go:286-301 | an item selected as resolved and then set firing by a newer event is deleted while it fires |
| `RetentionSafety.CurrentVersionStays` | internal/infrastructure/persistence/database/lifecycle/retention.go:31-31 | the published template version and any later one are never purged |
| `RetentionSafety.DoneMeansEveryDueRowVisited` | internal/infrastructure/persistence/database/lifecycle/retention.go:91-109 | done means that every due row of every table is spared, gone, or archived |
| `RetentionSafety.CandidatesAreOldest` | internal/infrastructure/persistence/database/lifecycle/retention.go:113-146 | candidates are the oldest due rows, ties by id |
| `RetentionSafety.CountersAreExact` | internal/infrastructure/persistence/database/lifecycle/retention.go:148-193 | purged and archived counters equal the rows gone and the entries added |
| `RetentionSafety.PurgeStallsIff` | internal/infrastructure/persistence/database/lifecycle/retention.go:148-176 | a purge pass changes nothing if and only if all its candidates are spared |
| `RetentionSafety.BatchStallsIff` | internal/infrastructure/persistence/database/lifecycle/retention.go:79-111 | a purge batch changes nothing if and only if every table it gets to under its shared limit has only spared candidates |
| `RetentionSafety.StalledBatchRepeats` | internal/infrastructure/persistence/database/lifecycle/retention.go:79-111 | a limit's worth of held rows at the old end uses up every batch: nothing is purged and it is never done |
| `Portability.PortableStore.ExportPortable` | internal/infrastructure/persistence/database/portability/portable.go:83-150 | all visible rows of every table, encoded and sorted, under their fingerprint |
| `Portability.PortableStore.ImportPortable` | internal/infrastructure/persistence/database/portability/portable.go:152-231 | validation, presence check, one insert transaction in which a row without a required value or under a taken key refuses the whole bundle, reconciliation |
| `Portability.PortableStore.InsertBundle` | internal/infrastructure/persistence/database/portability/portable.go:175-216 | all rows or none: the first row that the constraints of its table refuse rolls everything back |
| `Portability.CellRoundTrip` | internal/infrastructure/persistence/database/portability/portable.go:283-311 | a decoded cell re-encodes to itself if and only if it is canonical for its column and dialect |
| `PortabilitySafety.InvalidIsRefusedIff` | internal/infrastructure/persistence/database/portability/portable.go:233-272 | what an import refuses before it looks at the tables: another format, a blank or foreign scope, another schema, a row of another workspace, another fingerprint |
| `PortabilitySafety.ImportSucceedsIff` | internal/infrastructure/persistence/database/portability/portable.go:152-231 | a valid bundle imported into an empty target succeeds if and only if it is canonical there, its rows fill every required column and take keys distinct from each other and from those of other workspaces' rows; then the target exports the same bundle. If a constraint refuses a row nothing is stored; if the bundle is only not canonical, its rows stay committed although a conflict is reported |
| `PortabilitySafety.ExportImportExport` | internal/infrastructure/persistence/database/portability/portable.go:83-231 | whatever a canonical database exports under its own constraints, an empty target of the same dialect imports and exports again, bundle for bundle, if and only if no row of another workspace there holds one of its keys that do not name the workspace; otherwise nothing is stored |
| `PortabilitySafety.RowGoesInIff` | internal/infrastructure/persistence/database/schema/definition.go:3-22 | a row goes in if and only if its nulls are allowed, its values fit their columns, and no stored row agrees with it in every column of a unique key, nulls agreeing with nothing |
| `PortabilitySafety.RepeatedRowIsRefused` | internal/infrastructure/persistence/database/schema/definition.go:96-125 | a bundle that holds a row twice under a unique key is refused and leaves nothing, although its validation passes |
| `PortabilitySafety.SecondImportIsPresent` | internal/infrastructure/persistence/database/portability/portable.go:163-174 | a second import reports the bundle as present and changes nothing |
| `PortabilitySafety.ImportTouchesOnlyTarget` | internal/infrastructure/persistence/database/portability/portable.go:196-205 | existing rows stay and every added row carries the target workspace |
| `PortabilitySafety.CrossDialectNeedsNoBooleans` | internal/infrastructure/persistence/database/portability/portable.go:292-303 | between dialects that scan booleans differently a source bundle reconciles if and only if all its boolean cells are null |
| `Prelude.FailureCodeIff` | internal/domain/inbox/validation/validation.go:23-23 | letter by letter: which texts are stable keys and, up to 160 letters, failure codes |
| `Compiler.ValidateRule` | internal/domain/inbox/validation/catalog_validation.go:23-65 | accepts exactly the rules for known event types with non-negative windows whose channels are well formed, with stable template keys, and distinct by channel and step |
| `Compiler.ChannelOkIff` | internal/domain/inbox/validation/catalog_validation.go:33-62 | column by column: what a rule may say of an in-app and of an external channel |
| `Compiler.CompilePlans` | internal/domain/inbox/service/compiler.go:173-197 | one plan for each external channel of an enabled rule, in the rule's order, each with the columns of its channel and of the intent, and its first attempt after the digest window or the delay |
| `Compiler.CompilesIff` | internal/domain/inbox/service/compiler.go:33-96 | an intent compiles if and only if its type is published, has a locale for it, allows its resolvers, and its columns are acceptable; the event is then the intent's, with unique recipients, in the chosen locale |
| `Compiler.LocaleChosen` | internal/domain/inbox/service/compiler.go:240-254 | the locale asked for, without regard to case and separator, or else the default one, or none |
| `Compiler.NormalIff` | internal/domain/inbox/service/compiler.go:256-258 | two locales count as equal if and only if they differ at most in the case of letters and in the separator |
| `Compiler.CompiledPlansAreDistinct` | internal/domain/inbox/service/compiler.go:88-95 | plan ids of a compiled event are pairwise distinct, and the event is ready for the queue |
| `Compiler.LocaleChoiceStableIff` | internal/domain/inbox/service/compiler.go:240-254 | the locale is independent of map iteration order if and only if no two locales of the type normalize alike |
| `Compiler.CompileIsRepeatable` | internal/domain/inbox/service/compiler.go:33-96 | compiling an intent at two clocks gives events that count as the same |
| `Compiler.RepublishCreatesIffPurged` | internal/domain/inbox/service/compiler.go:33-96 | publishing an intent again returns the stored event until its row is purged; it is created again if and only if its source key was purged as often as it was created and nothing stands under its id |
| `Compiler.NamedRecipientsComeFirst` | internal/application/inbox/processor.go:98-116 | whatever the resolvers add, the named recipients of a compiled event come first and in order; without resolvers they are the whole audience and never refused for its size |

## Left out

- HTTP and OpenAPI transports, capability documents, telemetry, identity and permissions: they only call what is modelled.
- SQL text, dialect rendering, migration ledgers and advisory locks: tables are maps with the unique keys of the schema definition.
- Template text rendering, validation of e-mail addresses, URLs and portable HTML: they enter as arbitrary functions and predicates.
- `Manager.Publish` without approval: no binding exposes it.
- `moduleTransactions.InsertEvent` in the freeze proof: it does not pass the write guard.
- Writers in other processes during a migration: the lock is one binding's.
- Daylight-saving transitions: quiet hours are proved for a fixed offset.
- `Manager.SaveDraft` and `Manager.Disable` refuse while a request is open; the publication machine lets them happen at any time, which covers more runs.
- Retention of publication rows and imports acting on the publication tables while workers run: they are modelled apart.
- Reservations removed by retention: removal can only lower the counts, but it ends the replay guarantee.
- Collations under which different texts are equal: two keys are equal when their stored values are.
- Facet counts, saved views, delegations, governance metrics and subject erasure: queries without further state.
- Snapshot facts and actions, localized snapshots and rendered variables: one text stands for them.
- The items text of a digest message and fallback rendering: they do not influence which plans are handled.
- The due listings over several workspaces, and their sorting: `ProcessDue` is proved for whatever list it is given.
- Unicode case folding of locales: only ASCII letters and the two separators are folded.
- Escaping in cursors and portable cells: a cursor is its list of texts, a JSON scalar its value.
- `Reservations.QuotaAndDedupeHold`: for one fixed policy; when the limit is lowered, rows accepted under the old one remain.
- `PublicationProcessor.Processor.RecoverPublished`: writes one failure code for every error of the publish call, where the engine writes that error's own code if it has one; and the error that goes with a superseded or failed request is not returned beside it.
- `EventProcessor.InboxProcessor.ProcessAt`: a missing audience resolver is reported under the code of a failed one, and the recipients' own locales are not looked up.
- Severity, category, links and length limits of an event's texts: further refusals of the validator.
- `EventResults.MailboxMirrors`: under the stated discipline of group keys and event ids, which the validator only checks in one direction.
- `Compiler.CompileIsRepeatable`: for one state of the catalog; a changed catalog compiles a different payload, which the queue refuses.
