# Ownables Hub, verified

A Dafny model of the parts of the Ownables Hub that keep state, with proofs about every run of them.
`dafny verify dfyconfig.toml` checks the whole project.

The Hub accepts uploaded Ownables into a private quarantine, has any number of promoter processes
re-prepare and replay the staged bytes, and publishes, defers or rejects each one. An indexer copies
contract events into tables window by window. Viewers receive those events as a replay of the tables
followed by a live stream. All three are state machines whose properties hold only over whole runs.

| file | what it models |
|---|---|
| `Basics.dfy` | options, results, lower-casing, filtering |
| `Uploads.dfy` | the table of quarantined uploads and each SQL statement on it, as total functions of the table and of `NOW()` |
| `Leases.dfy` | ingress leases, the sliding request window, processing leases |
| `Ownership.dfy` | the owner-state upsert and its version counter |
| `Bundles.dfy` | reading an archive, choosing and normalising its chain file, identifying it, putting it together again for download |
| `Storage.dfy` | object keys, the two buckets, the storage services |
| `Promotion.dfy` | the quarantine-to-publication protocol: one task per upload request, promotion or cleanup, whose constructor is its program counter; a step runs one task up to its next statement on shared state |
| `PromotionProofs.dfy`, `PublicationProofs.dfy`, `PrefixProofs.dfy`, `VaultProofs.dfy`, `HubProofs.dfy` | what every interleaving of any number of tasks keeps |
| `Driving.dfy` | one promotion run to its end: exactly when it publishes, defers or refuses |
| `RejectionProofs.dfy` | why uploads are rejected, over every run |
| `Overlaps.dfy` | runs from nothing in which overlapping tasks go wrong |
| `CleanupProofs.dfy` | repeated sweeps: exactly when they drain |
| `Repository.dfy`, `Quarantine.dfy`, `OwnableService.dfy`, `IndexerService.dfy`, `Transport.dfy` | the services as classes whose methods run the code step by step on their fields, each proved against the functions above |
| `Indexing.dfy` | decoding, ordering, keyed event tables and cursor, the windowed scan and its refinement |
| `Streaming.dfy` | the replay-then-live viewer, exactly-once delivery, order |
| `ShownEvents.dfy` | what viewers are shown, told by the columns of the events |
| `LedgerStream.dfy` | what the indexer commits meets the assumptions of the stream theorems |

How the parts connect. A method of a service class says that its fields change as a table function
does, so the theorems about runs of that function hold of any sequence of calls. The promotion code is
moreover one stretch of steps of the protocol machine (`Driving.DrivingIsAStretchOfSteps`), and
every run of the protocol machine is a run of table statements (`HubProofs.HubRunsAreStatementRuns`).

## What is assumed

- Hashing and CID calculation are injective, an edited zip reads back as edited and lists each file
  once, CIDs and hexadecimal identifiers hold no slash. These are the fields of `Bundles.Environment`
  and the laws `PromotionProofs.Laws`; replaying is an arbitrary function of the CID, the chain, the
  package and the indexed evidence.
- `Laws` also says that no package holds a file named `<its own CID>.zip` (after leading slashes). Such a
  file is stored over the package's zip; `Storage.ZipSurvivesEveryOrder` proves that this is the only
  way a stored zip can be lost.
- The clock is monotone in the order transactions take the advisory locks (rate bound, and the theorems
  that say when a lease is granted), and each ingress request has its own lease identifier. The other
  table theorems assume nothing about time.
- Indexer: a node answers with exactly the logs of the range it is asked for, in any order; within a
  block no two logs share a position; two identities never share a slot, transaction and log index
  (`IndexingProofs.World`). The runs over one slot come one after the other: the cursor is written
  without looking at the old one, so of two overlapping runs the one that commits last would move it back
  whenever its window ends earlier.
- Stream: a notice is named by its deduplication key and by its row key (`StreamProofs.KeysNameNotices`);
  events are delivered at least once, or counted as outstanding or lost. Any number of indexers may commit
  and announce the same windows. Only order needs one indexer per slot and a channel that delivers in
  order.
- Cleanup: sweeps are repeated at one moment, find no row locked, and their removals succeed.

## Where the code is weaker than its documentation suggests

- Published chains of one subject only grow (ownable.service.ts:909-922) if and only if every
  publication passes, when it is made, the successor check it passed before it was staged
  (`PrefixProofs.ChainsGrowExactlyWhenAllSucceed`). The code does not repeat that check;
  `Overlaps.OverlappingUploadsBreakGrowth` is a run that breaks it, and without overlap it cannot be
  broken (`PrefixProofs.PublishedChainsOnlyGrow`).
- An active row keeps its private object if and only if nothing removes a referenced object and no row
  is inserted after its object was removed (`VaultProofs.ObjectsAreKeptExactlyWhen`). Check and removal
  are two statements, and so are store and insertion: `Overlaps.InterleavedRemovalLosesTheObject` and
  `Overlaps.RemovalBeforeInsertionLosesTheObject` lose it either way. That every stored object has an
  owner needs no such condition.
- A published row stays available if and only if no later statement rejects it
  (`Uploads.PublishedRowStaysAvailableExactlyWhen`, `HubProofs.PublishedUploadStaysAvailableExactlyWhen`).
  A rejection has no status guard: a promoter that lost its row, and even a promotion whose own clean-up
  throws after it published, turns `available` into `rejected` (`Uploads.StaleRejectionOverwritesAvailable`,
  `Driving.ThrownCleanupIsRejected`).
- A sound upload is rejected whenever something throws, a refused processing lease included:
  `Driving.PromotionEnds` says exactly when a promotion publishes, defers or rejects.
- The indexer's cursor never passes a public event that lacks a part, and a run that meets no other fault
  reaches the head if and only if there is none (`IndexingProofs.RunsResumeWhereTheyStopped`): the columns of the event
  table take no nulls, so a single event with, say, an empty type stops the slot at the window that holds it.
- `UPLOAD_PROCESSING_CONCURRENCY` (README.md:179 of the repository) has no effect above one: each
  processing lease reserves the whole byte budget (`Leases.ProcessingIsMutuallyExclusive`).
- `fromBlock` (README.md:105) restricts the replay only: a live event below it is shown if and only if its
  notification arrived (`StreamProofs.LiveEventsIgnoreFromBlock`), and one can be
  (`StreamProofs.EventsBelowFromBlockCanBeShown`).
- Cleanup can starve: a row that shares its object with an active one is kept, stays a candidate and fills
  a place in every batch. `CleanupProofs.CleanupDrainsExactlyWhen` says when sweeps still drain,
  `CleanupProofs.SharedKeyStarvesTheSweep` is a run of statements after which they do not.

## Model

| member | source | states |
|---|---|---|
| Uploads.BudgetAndUniquenessAlwaysHold | src/persistence/repos/hub-state.repository.ts:280-421 | after any sequence of statements by any processes the number and the bytes of the pending and promoting rows respect the budgets, and no two of these rows share a digest or a subject |
| Uploads.InsertionSucceedsExactlyWhen | src/persistence/repos/hub-state.repository.ts:280-327 | an insertion succeeds if and only if among the active rows that are not due there is room for one more row and its bytes and none has its digest or its subject; it is refused for capacity exactly when there is no room; it adds one pending row with the upload's columns and expires exactly the due rows |
| Uploads.ExecuteKeepsBudget | src/persistence/repos/hub-state.repository.ts:284-295 | each single statement keeps both budgets; only the insertion can add to them and it counts after expiring |
| Uploads.ExecuteKeepsUnique | migrations/1717199000000_quarantine_ownable_uploads.cjs:45-54 | each single statement keeps active digests and active subjects unique |
| Uploads.LeavingActiveIsFinal | src/persistence/repos/hub-state.repository.ts:329-406 | between any two moments of a run rows keep their identity columns, a row that left {pending, promoting} never re-enters it, and a deletion mark is never taken back |
| Uploads.EachRowIsPublishedAtMostOnce | src/persistence/repos/hub-state.repository.ts:436-488 | with any number of promoters and lapsed leases no row is published twice, and a row is published if and only if some statement of the run moved it from promoting to available |
| Uploads.OnlyPublishMakesAvailable | src/persistence/repos/hub-state.repository.ts:439-475 | a statement moves a row from promoting to available if and only if it is a publication of that row while it is promoting and not due |
| Uploads.FreshUploadCanBeClaimed | src/persistence/repos/hub-state.repository.ts:296-319 | an inserted upload can be claimed by either kind of claim at every moment before its retention ends, is not swept, blocks a second one and counts its bytes |
| Uploads.BatchClaimsExactlyTheFree | src/persistence/repos/hub-state.repository.ts:329-348 | a batch claim that names a row hands it out if and only if the row is not due and is pending, or promoting under a lease that has ended; every other row stays as it is |
| Uploads.NoActiveRowIsAbandoned | src/persistence/repos/hub-state.repository.ts:333 | in every reachable table a row that is active and not due is pending, or carries a lease from whose end on a batch claim hands it to another promoter |
| Uploads.CrashedPromotersRowIsClaimedAgain | src/persistence/repos/hub-state.repository.ts:329-348 | a claimed row whose promoter is never heard of again stays with it through any statements on other rows until its lease ends, and can be claimed by another promoter at every time from then to the end of its retention |
| Uploads.LeaseExcludesOtherPromoters | src/persistence/repos/hub-state.repository.ts:329-372 | until a lease ends no statement hands the row to another promoter, unless the row is deferred |
| Uploads.PublishedRowStaysAvailableExactlyWhen | src/persistence/repos/hub-state.repository.ts:374-380 | over any run a published row ends available if and only if no statement after its publication rejects it, and rejected otherwise |
| Uploads.StaleRejectionOverwritesAvailable | src/persistence/repos/hub-state.repository.ts:374-380 | for every upload within the limits there is a run from the empty table that publishes its row and ends with it rejected |
| Leases.RateIsBoundedInEveryWindow | src/persistence/repos/hub-state.repository.ts:490-515 | in every run with a monotone clock every half-open interval no longer than the window holds at most the maximum of admissions, although the table is pruned only on admission |
| Leases.AdmissionIsDecidedByHistory | src/persistence/repos/hub-state.repository.ts:495-502 | a request is rate-limited if and only if the window ending with it already holds the maximum of admissions in the whole history, and admitted if and only if it is not and a lease is free |
| Leases.ClosedWindowCanHoldOneMore | src/persistence/repos/hub-state.repository.ts:496-501 | the interval must be half-open: two requests exactly one window apart are both admitted under a maximum of one |
| Leases.IngressConcurrencyIsBounded | src/persistence/repos/hub-state.repository.ts:490-519 | at no moment are there more unexpired ingress leases than configured, whatever the order of admissions and releases |
| Leases.RequestIsAdmittedExactlyWhen | src/persistence/repos/hub-state.repository.ts:490-515 | a request is admitted if and only if the window that ends with it holds fewer than the maximum of admissions and fewer than the configured number of earlier requests were admitted less than the lease time ago and have not finished |
| Leases.ReservationsStayWithinBudget | src/persistence/repos/hub-state.repository.ts:521-554 | the reservations of all processing leases together never exceed the byte budget and there are never more than configured |
| Leases.ProcessingIsMutuallyExclusive | src/quarantine/quarantine.service.ts:158-174 | because every lease reserves the whole budget, at most one unexpired processing lease exists at any time for every configured concurrency |
| Leases.GrantedLeaseLasts | src/persistence/repos/hub-state.repository.ts:521-554 | a granted processing lease that is not released is in the table, with what it reserved, for the whole lease time |
| Leases.TableHoldsExactlyTheHeld | src/persistence/repos/hub-state.repository.ts:521-554 | at any time the unexpired processing leases are exactly those of the granted requests that were not released and were granted less than the lease time ago |
| Leases.ProcessingIsGrantedExactlyWhenFree | src/quarantine/quarantine.service.ts:158-174 | when every lease reserves the whole budget a request is granted if and only if every request granted before was released since or was granted at least the lease time ago |
| Ownership.VersionCountsChanges | src/persistence/repos/hub-state.repository.ts:565-594 | after any run of upserts a record's version is one plus the number of changes of its owner, account and last event, compared null-safely |
| Ownership.StateIsThatOfTheLastAssignment | src/persistence/repos/hub-state.repository.ts:565-594 | told by the columns alone: the state holds owner address in lower case, account and last event of the last assignment, and its version is one plus the number of assignments that differ from their predecessor in one of them |
| Ownership.EqualVersionsMeanEqualHoldings | src/persistence/repos/hub-state.repository.ts:458-470 | two observations with equal versions have equal triples, and versions never decrease |
| Bundles.Unzip | src/ownable/ownable.service.ts:674-690 | unpacking yields the file map of the archive, or fails exactly when the expanded size exceeds the budget, wherever the loop stops |
| Bundles.Prepare | src/ownable/ownable.service.ts:860-901 | the stepwise preparation computes the preparation function the theorems are about |
| Bundles.PreparationSucceedsExactlyWhen | src/ownable/ownable.service.ts:860-901 | preparation succeeds if and only if the upload is within the size limit, unpacks within the budget, holds one chain under either name or both, that chain parses, has events, all signed, and a hexadecimal identifier, and the runtime is there and supported; the two capacity errors are characterised |
| Bundles.PreparedFromTheArchive | src/ownable/ownable.service.ts:873-900 | each part of a prepared upload told from the archive: digests, identifier, subject, last signer, package files, CID and expanded size |
| Bundles.FilesAreTheEntries | src/ownable/ownable.service.ts:674-690 | the files of an archive are exactly its entries that are no folders, each with its content |
| Bundles.AliasLayoutsPrepareAlike | src/ownable/ownable.service.ts:692-708 | chain.json, eventChain.json, or both with equal contents: all layouts of the same content are accepted alike and prepare to the same Ownable |
| Bundles.PreparedPartsFitTogether | src/ownable/ownable.service.ts:866-900 | digests, CID, subject and identifier of a prepared upload are those of its own parts, and no chain alias is left among its package files |
| Bundles.DownloadPreparesBack | src/ownable/ownable.service.ts:1082-1091 | preparing a downloaded bundle succeeds if and only if the regenerated archive is within the size limit, and then gives back the same identifier, CID, chain and package files |
| Bundles.CidDeterminesContent | src/ownable/ownable.service.ts:876-882 | uploads with equal CIDs are the same Ownable with the same package files and chain |
| Storage.ImmutableChainKeyIsInjective | src/storage/archive-storage.service.ts:23-25 | different identifiers or digests never share a chain object |
| Storage.AssetKeyMeetsZipKey | src/storage/archive-storage.service.ts:11-17 | an asset is stored under a package's zip key only if it belongs to that package and is named after its CID |
| Storage.ZipIsStoredIntact | src/storage/archive-storage.service.ts:27-34 | in whatever order the concurrent asset writes complete, the zip stays as it was stored when no file shadows it |
| Storage.ZipSurvivesEveryOrder | src/storage/archive-storage.service.ts:27-34 | the zip survives every order in which the writes of all its package's files can complete if and only if every file that shadows it equals it |
| Storage.ArchiveStorageService.StorePackageArtifacts | src/storage/archive-storage.service.ts:27-34 | the zip is stored under its key when nothing shadows it, each asset under its own key with its own content when no other asset has that key, and no other object changes |
| PromotionProofs.BaseHolds | src/ownable/ownable.service.ts:971-1010 | in every reachable state each row carries the identity of the bytes it was staged with, every task's local variables are true of the shared state, and chain objects have the digest their key names |
| PromotionProofs.EveryRowIsItsUpload | src/ownable/ownable.service.ts:1047-1060 | in every reachable state each row carries, column by column, the identity, sizes, digests, issuer and object key of the bytes it was staged with |
| PromotionProofs.PackageKeepsZips | src/storage/archive-storage.service.ts:27-34 | storing one package never disturbs another package's zip or any stored chain |
| PromotionProofs.ChainGrowsArchive | src/storage/archive-storage.service.ts:40-44 | storing a chain keeps every stored zip and chain, and afterwards holds exactly this chain |
| PromotionProofs.RebuiltIsStaged | src/ownable/ownable.service.ts:985-994 | bytes that re-prepare to a row's identity give exactly the Ownable the row was staged for |
| PublicationProofs.PublishedIsStagedAndVerified | src/ownable/ownable.service.ts:936-1010 | every publication in any run is of the Ownable recomputed from its row's staged bytes, with the row's identity, by a replay that was verified and not stale against evidence the Hub held; no row is published twice |
| PublicationProofs.RetryMeansPublishedBytes | src/quarantine/quarantine.service.ts:30-36 | bytes are answered as available if and only if they are the bytes of the latest publication of some record |
| PublicationProofs.PromotionEndsAsItShould | src/ownable/ownable.service.ts:995-1009 | a row under promotion returns to pending only when its replay is unverified with a non-empty, entirely missing set of anchors; becomes available only in the step that logs an accepted publication; expires only when due; is rejected only by a task that gave it up, for a cause that `RejectionProofs.RejectedForACause` names |
| PublicationProofs.PublishedPartsStayArchived | src/ownable/ownable.service.ts:936-970 | in every reachable state every publication ever made and every record still has its zip and chain in the archive, and they reassemble to files with the record's CID |
| PublicationProofs.ListingAgreesWithHistory | src/persistence/repos/hub-state.repository.ts:705-724 | an account's listing is exactly the records whose latest publication derived that account; no Ownable is listed under two accounts or before its first publication |
| PublicationProofs.UpsertedRecords | src/persistence/repos/hub-state.repository.ts:447-457 | publication replaces the one record of the subject or adds a new one, each of its columns taken from its own part of the upload, and leaves every other record alone |
| PublicationProofs.RecordsAreThoseOfTheLatest | src/persistence/repos/hub-state.repository.ts:447-475 | in every reachable state each record and each owner state is, column by column, that of the latest publication into it: identifier, issuer, CID, digest, subject and chain key of the upload, owner, account and last event of its replay |
| RejectionProofs.RejectsExactlyWhen | src/ownable/ownable.service.ts:971-1010 | a promotion turns to rejecting if and only if a statement throws, the object is missing, the replay fails or is neither verified and fresh nor lacking anchors alone, or the row may not be published; which code it carries follows from where it stands |
| RejectionProofs.EveryRejectionHasACause | src/ownable/ownable.service.ts:972-994 | in every run each rejection goes back to a step at which its task had such a cause; the code for a mismatch never occurs, because what lies under a row's key always is what the row was staged with |
| RejectionProofs.RejectedForACause | src/ownable/ownable.service.ts:1005-1009 | a row that goes from promoting to rejected does so for one of these causes, never after it was published, and while store-then-insert and check-then-remove exclude each other per key never for a missing object |
| RejectionProofs.OnlyDoneRowsMissTheirObject | src/ownable/ownable.service.ts:972-984 | under that exclusion bytes are called invalid only because something threw or because the row had left the quarantine before |
| PrefixProofs.SuccessorExtendsAll | src/ownable/ownable.service.ts:909-922 | a chain that passes the successor check strictly extends every chain ever published for the subject |
| PrefixProofs.PublishedChainsOnlyGrow | src/ownable/ownable.service.ts:1039-1064 | without overlap the later of two publications of a subject strictly extends the earlier one, and every active row strictly extends all published for its subject |
| PrefixProofs.CheckMeansExtension | src/ownable/ownable.service.ts:909-922 | at any moment of a run whose publications have grown, a chain passes the successor check if and only if it strictly extends every chain ever published for its subject |
| PrefixProofs.PublishingGrowsExactlyWhenItSucceeds | src/persistence/repos/hub-state.repository.ts:436-457 | a publication keeps the chains growing if and only if its subject has no record or its chain passes the successor check against that record at this moment |
| PrefixProofs.ChainsGrowExactlyWhenAllSucceed | src/ownable/ownable.service.ts:1039-1064 | over whole runs published chains only grow if and only if every publication passes the check when it is made |
| Overlaps.OverlappingUploadsBreakGrowth | src/ownable/ownable.service.ts:1039-1064 | of any two sound uploads of one subject, the second not extending the first, there is a run from nothing that publishes both in that order |
| VaultProofs.EveryObjectHasAnOwner | src/quarantine/quarantine.service.ts:38-87 | for every interleaving each private object is stored under the digest of its bytes and has an unmarked row with its key or is still being staged or undone |
| VaultProofs.EveryActiveRowHasItsObject | src/quarantine/quarantine.service.ts:111-135 | while store-then-insert and check-then-remove exclude each other per key, every active row's object is present with exactly the bytes it was staged with |
| VaultProofs.ObjectsAreKeptExactlyWhen | src/quarantine/quarantine.service.ts:111-135 | along a run every active row keeps its object if and only if no step removes an object that an active row refers to at that moment and no row is inserted whose object is gone |
| Overlaps.InterleavedRemovalLosesTheObject | src/quarantine/quarantine.service.ts:126-135 | for every sound upload there is a run from nothing in which its second row is inserted between a cleanup's check and its removal and loses its object |
| Overlaps.RemovalBeforeInsertionLosesTheObject | src/quarantine/quarantine.service.ts:51-61 | for every sound upload there is a run from nothing that loses the object of an active row although no removal ever hits a referenced object: it falls between store and insertion |
| HubProofs.HubRunsAreStatementRuns | src/persistence/repos/hub-state.repository.ts:280-488 | every run of the protocol is a run of statements on the uploads table whose committed publications are its log, and a run of owner-state assignments |
| HubProofs.TableTheoremsHoldOfTheHub | src/persistence/repos/hub-state.repository.ts:280-488 | in every reachable state of the protocol budgets, uniqueness, single publication and faithful versions hold |
| HubProofs.PublishedUploadStaysAvailableExactlyWhen | src/ownable/ownable.service.ts:1002-1009 | in every run of the protocol the row of a logged publication ends available if and only if no rejecting task rejects it after that |
| Repository.HubStateRepository.CreateQuarantinedUpload | src/persistence/repos/hub-state.repository.ts:280-327 | expire, count, check, insert as one transaction: the row is added or nothing changes at all, with the error that applies |
| Repository.HubStateRepository.ClaimQuarantinedUploads | src/persistence/repos/hub-state.repository.ts:329-348 | claims the oldest unlocked rows up to the limit that are not due and are pending, or promoting under a lease that has ended, fewer only when there are no more, and gives exactly those a lease of the configured length |
| Repository.HubStateRepository.ClaimCandidates | src/persistence/repos/hub-state.repository.ts:331-335 | the selection itself: increasing identifiers, all claimable (`Uploads.BatchClaimsExactlyTheFree`) and unlocked, nothing older left out |
| Repository.HubStateRepository.ExpireQuarantinedUploads | src/persistence/repos/hub-state.repository.ts:382-406 | selects and expires the earliest due or terminal undeleted rows up to the limit |
| Repository.HubStateRepository.SweepCandidates | src/persistence/repos/hub-state.repository.ts:384-389 | the selection: distinct, ordered by expiry, nothing that expires earlier left out, fewer than the limit only when there are no more |
| Repository.HubStateRepository.PublishQuarantinedUpload | src/persistence/repos/hub-state.repository.ts:423-488 | succeeds exactly when the row is promoting and not due and no statement throws; then the row becomes available, the record of the subject gets each column from its own part of the upload, the owner state each from its own part of the replay, and the version is reported; otherwise all three tables are as before |
| Repository.HubStateRepository.ListAvailableOwnablesByOwnerAccount | src/persistence/repos/hub-state.repository.ts:705-724 | exactly the records whose current owner account is the given one |
| Repository.HubStateRepository.AcquireIngressLease | src/persistence/repos/hub-state.repository.ts:490-515 | prune, count and insert as one transaction; a refusal changes nothing |
| Repository.HubStateRepository.AcquireProcessingLease | src/persistence/repos/hub-state.repository.ts:521-550 | prune, sum and insert as one transaction; a refusal changes nothing |
| Repository.HubStateRepository.WithIndexerPersistenceTransaction | src/persistence/repos/hub-state.repository.ts:880-952 | all events of a window and its cursor are written, or, whichever statement throws, none of them; a public event without subject, source, type, data or timestamp makes its own statement throw |
| Quarantine.QuarantineService.FindExactRetry | src/quarantine/quarantine.service.ts:30-36 | reports a pending row or a published record of the same bytes exactly when there is one, pending first |
| Quarantine.QuarantineService.Stage | src/quarantine/quarantine.service.ts:38-87 | with any statements of other processes between the look-ups and the insertion: an active row of the same bytes answers, a busy subject conflicts, and otherwise the object and the row are both added or the object is removed again unless an active row refers to it; it succeeds exactly when the bytes are staged already or the subject is free and the row is inserted or appears meanwhile |
| Quarantine.QuarantineService.StoreAndInsert | src/quarantine/quarantine.service.ts:51-86 | object first, then row; on failure an active row of the same bytes answers, and otherwise the object is removed unless an active row refers to it |
| Quarantine.QuarantineService.Cleanup | src/quarantine/quarantine.service.ts:111-124 | expires the selected rows and releases their objects one by one, skipping referenced ones and swallowing failures |
| Quarantine.ConflictsAreVisible | src/quarantine/quarantine.service.ts:76-81 | an insertion that violates a unique index always shows in one of the look-ups of the failure path |
| CleanupProofs.SweepReleasesExactlyTheUnreferenced | src/quarantine/quarantine.service.ts:114-123 | whatever the order of the candidates a sweep marks and removes exactly those no active row refers to |
| CleanupProofs.CleanupDrains | src/quarantine/quarantine.service.ts:111-124 | with time fixed, and fewer rows in the way of each candidate than a sweep selects, as many sweeps as there are candidates leave only the rows kept by an active row that is not due, and the bucket holds exactly the objects of active rows that are not due |
| CleanupProofs.CrowdedRowIsNeverReached | src/persistence/repos/hub-state.repository.ts:384-389 | a candidate with as many kept rows ahead of it as a sweep selects is never dealt with, however many sweeps run |
| CleanupProofs.CleanupDrainsExactlyWhen | src/quarantine/quarantine.service.ts:111-124 | where no two candidates expire at one time, enough sweeps deal with everything but the stuck rows if and only if each other candidate has fewer rows in its way than a sweep selects |
| CleanupProofs.QuietHubIsSettled | src/quarantine/quarantine.service.ts:38-87 | every state of the protocol without running tasks meets what the sweep theorems assume, under the per-key exclusion |
| CleanupProofs.SharedKeyStarvesTheSweep | src/quarantine/quarantine.service.ts:115-118 | after a run of five statements from the empty table (rejected, a second upload, the first bytes again) sweeps of one row never deal with the second upload, at any time after it is due |
| OwnableService.Service.PromoteQuarantinedUpload | src/ownable/ownable.service.ts:971-1010 | one promotion, with any of its statements throwing, ends where the protocol machine ends; it answers published if and only if nothing throws, the object is there and prepares to the row's identity, the replay is verified and fresh and the row may be published, and deferred if and only if the replay lacks only anchors and the deferral does not throw |
| OwnableService.Service.PublishPreparedUpload | src/ownable/ownable.service.ts:936-969 | archives zip, assets and chain before the publication transaction; it succeeds exactly when nothing throws and the row may be published, and otherwise logs nothing |
| OwnableService.Service.Rebuild | src/ownable/ownable.service.ts:972-994 | goes on exactly when nothing throws and the staged bytes are there, prepare and match the claimed row; otherwise rejects with the code that applies |
| OwnableService.Service.Judge | src/ownable/ownable.service.ts:995-1001 | defers exactly for missing anchors alone, goes on exactly with a verified fresh replay, rejects everything else |
| OwnableService.Service.PromoteStaged | src/ownable/ownable.service.ts:1064-1065 | publishes if and only if the uploader's claim succeeds and its promotion ends published; a row it may not claim is left alone |
| OwnableService.Service.PrepareUnderLease | src/ownable/ownable.service.ts:1032-1038 | a refused processing lease is the answer and changes nothing; a granted one gives the preparation and is released whatever that is |
| OwnableService.Service.StageAndPublish | src/ownable/ownable.service.ts:1047-1069 | succeeds if and only if staging succeeds and the replay lacks only anchors or the upload's own promotion publishes; a pending answer names identifier and expiry of an active row of these bytes, a created one identifier, CID, owner and account of the one new publication of them |
| OwnableService.Service.UploadOwnable | src/ownable/ownable.service.ts:1019-1070 | pending and available bytes are answered without any change, with identifier and expiry of an active row or identifier and CID of a record of these bytes; an upload that gets no lease or is not admissible is refused and leaves no trace; any other is answered if and only if its staging succeeds and it lacks only anchors or its own promotion publishes it, with what was staged or published |
| OwnableService.SoundUploadIsPublished | src/ownable/ownable.service.ts:1019-1070 | new bytes with a verified fresh replay, a free subject and room in the quarantine are staged and published by their own request when nothing throws and nobody interferes |
| OwnableService.Service.CheckStrictSuccessor | src/ownable/ownable.service.ts:909-922 | the loop decides whether both chains parse and the stored one is shorter and equal to the candidate event by event |
| OwnableService.Service.Accept | src/ownable/ownable.service.ts:1039-1046 | an upload is accepted exactly when it succeeds the stored chain and its replay is verified and fresh or lacks only anchors |
| Driving.UploadEnds | src/ownable/ownable.service.ts:1019-1060 | exactly what an uninterrupted upload leaves before its promotion: row and object when it is new, within limits, a successor, verified or lacking only anchors, of a free subject, inserted, and nothing throws; nothing at all when it does not get to the store; and after a failed insertion at most an object that an active row refers to |
| Driving.DrivingIsAStretchOfSteps | src/ownable/ownable.service.ts:971-1010 | an uninterrupted task is one stretch of steps of the protocol machine beside any other tasks |
| Driving.PromotionEnds | src/ownable/ownable.service.ts:971-1010 | exactly how a promotion leaves its row: available if and only if it publishes and its clean-up does not throw, pending if and only if it is deferred, rejected otherwise; its publication is logged exactly when the transaction committed |
| Driving.ThrownCleanupIsRejected | src/ownable/ownable.service.ts:1002-1008 | when the clean-up after a publication throws and the rejection does not, the row ends rejected with its publication still in the log |
| IndexingProofs.NormalizeIsCanonical | src/indexer/indexer.service.ts:201-281 | in whatever order a node returns a window's logs, decoding and sorting them gives the window's events in ledger order |
| IndexingProofs.EventsAreOrdered | src/indexer/indexer.service.ts:272-280 | the events of consecutive blocks are strictly increasing by block, then transaction, then log |
| IndexingProofs.IndexerRefinesOnePass | src/indexer/indexer.service.ts:58-149 | after any runs of any slots, with failures at any window, restarts, changed start blocks and longer chains, each identity's event tables are those of one keyed pass over the blocks from its first start to its cursor, its committed windows partition that range in pieces of at most 2000 blocks, and the range holds no incomplete public event |
| IndexingProofs.OnePassHoldsExactlyTheEvents | src/persistence/repos/hub-state.repository.ts:741-878 | the one-pass table holds exactly the events of the covered blocks: each has one row under its transaction and log index that tells of it up to letter case, and there is no other row |
| IndexingProofs.DecodeTellsOfTheLog | src/indexer/indexer.service.ts:201-270 | exactly the recognised logs are decoded, each part being the log's own argument without surrounding blanks, in lower case except for the event type, or nothing when that is empty |
| IndexingProofs.TablesHoldExactlyTheLogs | src/indexer/indexer.service.ts:58-149 | end to end: after any runs the rows of an identity are exactly those of the recognised logs of the blocks it covers, one row for each under slot, transaction and log, which says what the log says |
| IndexingProofs.RunsMoveForward | src/indexer/indexer.service.ts:66-95 | a cursor never moves backwards, and the blocks it passed since its first window hold no incomplete public event |
| IndexingProofs.RunsResumeWhereTheyStopped | src/indexer/indexer.service.ts:182-199 | after any runs, a faithful fault-free run with a cursor starts there, is refused and changes nothing when the configured block is at or above it, and without a cursor starts at the configured block; beyond the head it changes nothing, and otherwise it covers everything up to the head if and only if the public events on the way are complete |
| IndexingProofs.ScanReachesHeadExactlyWhen | migrations/1717192000000_public_event_shape_remediation.cjs:30-34 | a scan that meets no other fault reaches its last block if and only if no public event on the way lacks one of the parts its row must have |
| IndexingProofs.ScanMovesForward | src/indexer/indexer.service.ts:76-95 | a scan only appends windows and notifications and moves no cursor back |
| IndexerService.Indexer.NormalizeLogs | src/indexer/indexer.service.ts:201-281 | the loop that decodes and the sort compute the normalisation function |
| IndexerService.Indexer.SortInPlace | src/indexer/indexer.service.ts:272-280 | the sort by block, transaction and log, stable |
| IndexerService.Indexer.PersistWindow | src/indexer/indexer.service.ts:98-149 | events and cursor of a window are committed together or not at all; the cursor then stands after the window with its last event |
| IndexerService.Indexer.RunSlot | src/indexer/indexer.service.ts:58-96 | the window loop computes the scan function, faults included; it fails and changes nothing when the configured block is at or above the cursor, and otherwise succeeds if and only if no window from its start to the head throws or holds an incomplete public event |
| Streaming.PublicEventStream.Next | src/ownable/ownable.service.ts:781-796 | a live message is filtered, buffered until the replay is done, then emitted unless its key was seen |
| Streaming.PublicEventStream.Replay | src/ownable/ownable.service.ts:802-833 | emits the rows, marks their keys and drains the buffer |
| StreamProofs.RowKeepsKey | src/ownable/ownable.service.ts:1160-1168 | a row and the live message of the same event have the same deduplication key |
| StreamProofs.DecodedEventsAreNormalised | src/indexer/indexer.service.ts:221-227 | decoded events carry their subject in lower case |
| StreamProofs.ReplayEmitsDue | src/persistence/repos/hub-state.repository.ts:1119-1177 | replaying the query's answer shows exactly the due events of the table, each key once |
| StreamProofs.EmittedExactlyWhen | src/ownable/ownable.service.ts:761-840 | for every interleaving no key is emitted twice, and a watched event has been emitted if and only if the query saw it from the requested block on or its notification arrived |
| StreamProofs.EmittedExactlyWhenSeenOrHeard | src/ownable/ownable.service.ts:761-840 | for every interleaving no key is emitted twice, and a due event has been emitted if and only if the query saw it or its notification arrived |
| StreamProofs.LiveEventsIgnoreFromBlock | src/ownable/ownable.service.ts:781-796 | a watched event below the requested block has been emitted if and only if its notification arrived |
| StreamProofs.EventsBelowFromBlockCanBeShown | src/ownable/ownable.service.ts:781-796 | for every viewer and every watched event below its requested block there is a run that emits it |
| StreamProofs.EveryDueEventIsEmittedOnce | src/ownable/ownable.service.ts:761-840 | with any number of indexers a due committed event that was published, or is neither waiting to be nor lost, and is not outstanding, is emitted exactly once |
| ShownEvents.NothingElseIsShown | src/ownable/ownable.service.ts:781-833 | every message a viewer was shown is for a complete public event of a watched subject and the watched contract: the message that arrived, or a row that says what the event says and lies at or after the requested block |
| ShownEvents.EveryWatchedEventIsShownOnce | src/ownable/ownable.service.ts:761-840 | a complete event of a watched subject and contract at or after the requested block is shown exactly once, with its own content, when it was published and has arrived or nothing of it is waiting or lost |
| ShownEvents.HistoryComesFirstInOrder | src/ownable/ownable.service.ts:800-828 | whatever the order in which windows were committed, what a viewer was shown begins with the history in ledger order, and that has every watched event the query found from the requested block on |
| StreamProofs.LostAfterTheQueryIsNeverEmitted | src/indexer/indexer.service.ts:85-87 | an event whose indexer died between commit and publication, committed after the query, is never emitted |
| StreamOrder.EmittedInLedgerOrder | src/ownable/ownable.service.ts:800-833 | with in-order delivery the emitted events from the requested block on are strictly increasing in the ledger, crashes included |
| LedgerStream.LedgerSuitsTheStream | src/indexer/indexer.service.ts:272-280 | the public events of any stretch of a ledger are in order, have distinct keys and lower-case subjects |
| LedgerStream.AnnouncesWhatItCommitted | src/indexer/indexer.service.ts:151-176 | what is published for a window is exactly its complete committed public events, in order and under the lower-cased identity |
| LedgerStream.ViewersSeeTheLedger | src/indexer/indexer.service.ts:76-96 | end to end, with any number of indexers committing any stretches of one ledger any number of times: nothing is shown twice, and every due event that was published and delivered is shown |
| LedgerStream.ViewersSeeTheLedgerInOrder | src/indexer/indexer.service.ts:76-96 | with one indexer that commits window after window and a channel that delivers in order, what is shown from the requested block on is in ledger order |
| Transport.OwnableTransportService.OnNotification | src/ownable/ownable-transport.service.ts:51-64 | forwards messages of other processes and suppresses the own ones |
| Transport.EveryProcessHearsEachMessageOnce | src/ownable/ownable-transport.service.ts:50-99 | in every process what was received plus what is still on its way is exactly what was published, with multiplicity |

## Left out

- The replay runtime, WASM inspection, anchor validation and freshness: arbitrary functions of their inputs.
- Reading the evidence of a replay: the anchor rows and the public rows are two queries in the code and one snapshot here.
- Hashing, CID calculation and zip coding: parameters with the laws named above.
- SQL text, the driver, LISTEN/NOTIFY and the RPC client: atomic steps over tables, queues and a provider that returns exactly the logs of a range. Chain reorganisations are not handled by the code either.
- Generated identifiers: rows and records are numbered in insertion order, which is also their `created_at` order.
- Bucket failures while an object is stored or while a failed staging is undone: a task that stops there stays where it is, and its object stays with it. The configured orphan grace period is not used by the code.
- The `updated_at`, `last_attempt_at`, `reason_detail` and `chain_file_name` columns, and the order of listings that depends on them.
- The `ownable_id` and `package_cid` columns of public events, which depend on when the event was indexed.
- The identifier under which a stream message names its Ownable: the one the viewer asked for, looked up by the subject.
- JavaScript's `Number` conversions of block numbers and counts are taken to be exact.
- The deduplication key is a record of its five parts where the code joins their text with colons; the parts hold no colon.
- Storage.ArchiveStorageService.StorePackageArtifacts: the concurrent asset writes are modelled as one sequence in completion order, and in the protocol machine the writes of one package are one step. A write that fails halfway is covered there: the order of a step may name any of the assets, and the next step may fail.
- A batch claim appears in the protocol machine as consecutive claims of its rows at one time; `Uploads.Execute` has the batch statement itself.
- Repository.HubStateRepository.ListAvailableOwnablesByOwnerAccount: gives the set of records; their order by update time is not modelled, as that column is not.
- Quarantine.QuarantineService.FindExactRetry: every record here has its Ownable identifier, so the legacy records without one, for which the code gives no answer, do not occur.
- Quarantine.QuarantineService.Stage: statements of other processes are admitted between the look-ups and the insertion; all finer interleavings are those of the protocol machine in `Promotion.dfy`.
- OwnableService.Service.UploadOwnable: as for staging; the metadata read for the discovery notification is part of the statement that publishes.
- Two overlapping indexer runs over one slot: the runs of `Indexing.AfterRuns` come one after the other (the stream theorems admit any number of indexers).
- Methods of the service classes without a row above (single look-ups, releases, marks, the single statements of a rejection or a deferral): specified in their files against the table functions.
- Promotion.Take: lets cleanups start on any terminal row and uploads be claimed at any moment, which covers what the services do and more.
- HTTP controllers, interceptors, filters, SIWE, Swagger, health checks, configuration parsing, wallet balances, titles and thumbnails, CAIP-10 text, the legacy record upsert and event listings: plumbing that would add only easy members.
