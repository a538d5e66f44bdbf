# Marketplace verification

A Dafny model of the marketplace's stateful protocols, with proofs of what they guarantee. `dafny verify
dfyconfig.toml` checks everything.

The modules follow the program.

- **Reservation and listing workflow** (`Marketplace*.dfy`). The seven operations of the marketplace service as
  steps over users, listings, reservations and the `commerce.*` log, where every repository write and every
  recording may fail without effect. `MarketplaceSafety` proves what holds over every run, `MarketplaceReplay` that
  the log rebuilds the statuses, `MarketplaceServices` how far the second, service-backed implementation agrees,
  `MarketplaceRights` who may make which call. The two `*Path` modules are both implementations as objects, proved
  to have exactly the effect of those steps, and `MarketplaceObjects` carries the theorems over to them.
- **Outbox pipeline** (`Outbox.dfy`, `OutboxBooks`, `OutboxEffects`, `OutboxDrain`, `OutboxLineage`, `OutboxIdle`,
  `OutboxSchedule`, `OutboxProgress`, `OutboxObjects`). At-least-once delivery with retries, dead letters and
  requeue, whose handlers save further events while they are being dispatched. Handlers are an oracle over the whole
  outbox. `OutboxIdle` is the same worker as a machine of atomic steps, interleaved with producers, requeues and
  waiters.
- **Images** (`Images.dfy`, `ImageMemory`, `ImageSqlite`, `ImageMigration`, `ImageAssets`, `ImageAssetsResults`,
  `ImageAssetsRuns`, `ImagePipeline`, `ImageClaims`). Both image repositories refine one abstract sequence of ids
  per listing; the SQLite one and the start-up migration respect the unique index at every single statement.
  `ImageAssets` interleaves uploads, handlers and deletions over one storage; `ImagePipelines` has the upload, the
  retry loop and the thumbnail loop as code that runs in that machine; `ImageClaims` drops the assumption of one
  event per image.
- **Trust** (`Trust.dfy`, `TrustEffects`, `TrustOrder`, `TrustStore`, `TrustPipeline`, `TrustCounting`). Counters,
  the clamped score, the event stream that every stored profile is the fold of, also when the outbox retries and
  redelivers, and how often a redelivered event counts.
- **Search and stored text** (`Search.dfy`, `SearchAgreement`, `Timestamps`, `TimestampParsing`, `Serialization`,
  `OutboxQuery`). The search index and the text-encoded outbox answer like their in-memory counterparts.
- `Common.dfy`, `Lineage.dfy` and `Sorting.dfy` hold result types, event lineage and the stable sort.

Some guarantees hold only under a condition. The lemmas give it exactly, and a run that breaks it.

- A reservation and its listing contradict each other exactly after a failed compensating save or a failed restore
  that no later call has made good (`MismatchIff`, `FailedRollbackRun`, `FailedRestoreRun`).
- A rolled-back accept leaves no trace, and the log knows every reservation, unless a compensating save fails
  (`ReplayRebuilds`, `FailedRollbackRun`).
- The two implementations of `accept_reservation` differ once a best-effort restore has failed: only the service
  path then refuses a listing that is not PUBLISHED. On a publish that is refused for two reasons they give
  different ones (`AcceptAgreesIffPublished`, `FailedRestoreSeparatesPaths`).
- An upload whose entity is refused after its file was saved orphans the file: with an empty filename or content
  type, or with the eleventh position that two concurrent uploads at nine images can reach (`AbandonedIffRefused`,
  `TwoUploadsAtNine`, `InvalidDetails`). The HTTP route passes neither, so there only the race remains.
- A `mark_ready` that raises can leave thumbnails behind that no handler knows of (`LeakedIffGivenUp`,
  `RaisingMarkLeaks`).
- A SQLite reorder of 11 to 100 images is committed although reading the result back raises. `MediaService` never
  gets there, because it reads the listing first, and that raises already (`ReorderForListing`,
  `ReverseLongListing`, `HydratesIff`).
- Two handlers of one image that run at once can delete the file of a live image. Events that are handled one after
  the other, as the one worker does, never do (`OriginalLostIff`, `SequentialKeepsTheOriginal`).
- An `outbox.save` that raises after the profile was stored breaks the fold (`FoldsThroughoutIff`,
  `LostAnnouncement`).
- The trust handlers are not idempotent: a dispatch that raises half-way and is retried counts its first participant
  again (`CountedOnceIff`, `CountersAreExactIff`, `CountedTwice`).
- Listings that were made in the same second can change places between the two search backends (`PagesAgreeIff`).
- A query bound that is not in UTC compares differently as text and as time (`BoundsCompareAlikeIff`), and a query
  made inside the context of another event can match more in memory than in SQLite (`QueriesDifferIff`).

## Model

| member | source | states |
|---|---|---|
| MarketplaceSafety.NeverTwoAccepted | application/marketplace/service.py:350-393 | over every run, with any pattern of failing writes, two ACCEPTED reservations of one listing are the same reservation |
| MarketplaceSafety.MismatchIff | application/marketplace/service.py:379-506 | over every such run, the listing of an ACCEPTED reservation is not RESERVED if and only if its accept could neither reserve the listing nor be undone, and a RESERVED listing has no ACCEPTED reservation if and only if a restore of it failed and no reservation of it was accepted since |
| MarketplaceSafety.MismatchIsFailedRepair | application/marketplace/service.py:385-393 | every such mismatch goes back to a failed compensating save or a failed restore |
| MarketplaceSafety.ReservedIffOneAccepted | application/marketplace/service.py:462-506 | in a fault-free run a listing is RESERVED exactly when it has exactly one ACCEPTED reservation |
| MarketplaceSafety.FaultFreeNeedsNoRepair | application/marketplace/service.py:385-393 | a fault-free run never reaches the compensation or loses a restore, although both are driven by the state |
| MarketplaceSafety.RunInv | application/marketplace/service.py:350-506 | the combined invariant behind these: one ACCEPTED reservation per listing, reservations only of published listings of the same seller, and the exact sets of mismatched reservations and listings |
| MarketplaceRights.AcceptedIff | application/marketplace/service.py:351-393 | over every run an accept succeeds if and only if its writes do, the caller is the ACTIVE seller of the listing itself, the reservation is PENDING and no reservation of the listing is ACCEPTED; it changes that reservation and listing and nothing else |
| MarketplaceRights.PublishedIff | application/marketplace/service.py:193-224 | a listing is published if and only if the write succeeds and its own ACTIVE seller asks, from DRAFT, with at least two ready images where they are counted |
| MarketplaceRights.ReservedIff | application/marketplace/service.py:263-305 | a reservation is made if and only if the write succeeds and an ACTIVE user asks for a PUBLISHED listing of another ACTIVE user; it starts PENDING |
| MarketplaceRights.CancelledIff | application/marketplace/service.py:467-514 | over every run a PENDING or ACCEPTED reservation is cancelled, and its listing is back to PUBLISHED if and only if it was ACCEPTED, the listing RESERVED and the restore works |
| MarketplaceRights.UsersAndListings | application/marketplace/service.py:64-166 | users start PENDING and become ACTIVE only from there; only ACTIVE users make listings, which start as DRAFT |
| MarketplaceRights.RefusedChangesNothing | application/marketplace/service.py:351-393 | a call that is refused or fails changes nothing, except an accept that cannot be undone, which leaves its reservation ACCEPTED |
| MarketplaceRights.EventsOf | application/marketplace/service.py:395-407 | which events a successful call records, in which order, and whom and what they name |
| MarketplaceRights.BothGrantTheSame | application/marketplace/service.py:409-460 | after a fault-free run the next call succeeds in either implementation if and only if its caller may make it |
| MarketplaceReplay.ReplayRebuilds | application/marketplace/service.py:395-406 | if the recorder works, replaying the `commerce.*` log gives every stored listing status, and every reservation status except, exactly, a reservation that is still ACCEPTED because its own compensating save failed; for that one the log says PENDING |
| MarketplaceReplay.RolledBackAcceptLeavesNoTrace | application/marketplace/service.py:385-393 | whatever is called after a rolled-back accept, everything stored and logged is as if it had never been tried; exactly if the compensating save succeeds |
| MarketplaceReplay.FailedRollbackRun | application/marketplace/service.py:385-393 | a concrete run in which it fails: the reservation stays ACCEPTED, its listing PUBLISHED, and the log says PENDING |
| MarketplaceReplay.FailedRestoreRun | application/marketplace/service.py:488-506 | a concrete run in which the restore fails: the listing stays RESERVED with no ACCEPTED reservation |
| MarketplaceServices.PathsBisimulate | application/marketplace/service.py:369-460 | in fault-free runs both implementations go through the same users, listings, reservations and log; the next call succeeds in both or in neither, with the same error except on a publish refused for two reasons at once |
| MarketplaceServices.AcceptAgreesIffPublished | domain/listings/service.py:89-98 | outside such runs an accept that passes the common guard has the same outcome in both paths exactly when the listing is PUBLISHED |
| MarketplaceServices.FailedRestoreSeparatesPaths | application/marketplace/service.py:488-506 | from any sound state with two PENDING reservations of one listing, accepting and cancelling the first while the restore fails makes the two paths answer differently on the second |
| MarketplaceRepositoryPath.RepositoryMarketplace.CreateUser | application/marketplace/service.py:64-73 | the new stores and the result are those of the workflow step |
| MarketplaceRepositoryPath.RepositoryMarketplace.ActivateUser | application/marketplace/service.py:75-96 | the same, for activation |
| MarketplaceRepositoryPath.RepositoryMarketplace.CreateListing | application/marketplace/service.py:133-166 | the same; a failing or duplicate add changes nothing and records nothing |
| MarketplaceRepositoryPath.RepositoryMarketplace.PublishListing | application/marketplace/service.py:193-224 | the same; status before image count, and only then the write and the event |
| MarketplaceRepositoryPath.RepositoryMarketplace.CreateReservation | application/marketplace/service.py:263-305 | the same, guard by guard |
| MarketplaceRepositoryPath.RepositoryMarketplace.FindAccepted | application/marketplace/service.py:369-371 | the scan over all reservations finds an ACCEPTED one exactly when there is one |
| MarketplaceRepositoryPath.RepositoryMarketplace.AcceptReservation | application/marketplace/service.py:351-407 | the saga over two repositories, including its compensation, has exactly the effect of the workflow step under the same failing writes |
| MarketplaceRepositoryPath.RepositoryMarketplace.CancelReservation | application/marketplace/service.py:467-514 | the same for the cancellation with its best-effort restore |
| MarketplaceRepositoryPath.RepositoryMarketplace.RestoreListing | application/marketplace/service.py:488-506 | the listing goes back to PUBLISHED, with its event, exactly when no other reservation holds it, it is RESERVED and the save works |
| MarketplaceRepositoryPath.RepositoryMarketplace.Execute | application/marketplace/service.py:64-514 | a sequence of calls on the object has exactly the effect of the run of workflow steps |
| MarketplaceServicePath.InMemoryMarketplace.PublishListing | application/marketplace/service.py:226-260 | the service path on objects does what its value-level step says |
| MarketplaceServicePath.InMemoryMarketplace.CreateReservation | application/marketplace/service.py:307-348 | the same, for reservations |
| MarketplaceServicePath.InMemoryMarketplace.AcceptReservation | application/marketplace/service.py:409-460 | the same; a refused reserve puts the reservation status back in place |
| MarketplaceServicePath.InMemoryMarketplace.CancelReservation | application/marketplace/service.py:516-556 | the same, for cancellation |
| MarketplaceServicePath.InMemoryMarketplace.Execute | application/marketplace/service.py:168-556 | the same for the service-backed object |
| MarketplaceObjects.ServeOverRepositories | application/marketplace/service.py:350-514 | on the object itself: never two ACCEPTED reservations of a listing, exactly the mismatches that the failed repairs of the calls leave, and a log that agrees with what is stored up to these |
| MarketplaceObjects.ServeOverBoth | application/marketplace/service.py:350-556 | after the same fault-free calls both objects hold the same users, listings, reservations and log |
| MarketplaceServicePath.ReservationService.Accept | domain/reservations/service.py:45-54 | accepts exactly a stored PENDING reservation, and nothing else changes |
| MarketplaceServicePath.ReservationService.Cancel | domain/reservations/service.py:67-76 | cancels exactly a stored PENDING or ACCEPTED reservation |
| MarketplaceServicePath.ReservationService.FindAccepted | application/marketplace/service.py:427-429 | finds an ACCEPTED reservation of the listing exactly when there is one |
| MarketplaceServicePath.ListingService.Reserve | domain/listings/service.py:89-98 | moves exactly a stored PUBLISHED listing to RESERVED |
| OutboxBooks.BooksAlwaysBalance | infrastructure/events/outbox_worker.py:90-129 | after every save, pass and requeue: no entry is both published and dead, an entry is dead exactly when its retries are used up, retries = sum of retry counts + R per requeue, dead letters = dead + requeued, published count = published entries, handler failures = retries, queue depth = pending entries |
| OutboxBooks.ProcessAllKeepsBooks | infrastructure/events/outbox_worker.py:78-129 | a pass over any batch keeps the books and touches no row outside the batch except by adding rows |
| OutboxBooks.RequeueKeepsBooks | infrastructure/repositories/memory.py:422-438 | a requeue keeps the books whatever ids it is given |
| OutboxEffects.ListedInSaveOrder | infrastructure/repositories/memory.py:355-370 | of two listed entries the one that was saved first is listed first |
| OutboxEffects.BatchIsTheOldest | infrastructure/events/outbox_worker.py:67-68 | a batch with limit n holds exactly the n pending entries that were saved first: the one with k others pending before it comes k-th |
| OutboxEffects.PassTakesTheOldest | infrastructure/events/outbox_worker.py:67-134 | one pass with limit n dispatches exactly those once each, to published or to one retry more and dead at R, leaves every other row alone, and what their handlers save comes in the same order |
| OutboxEffects.DispatchIs | infrastructure/events/in_process_dispatcher.py:59-95 | one dispatch changes its own row alone, by its outcome, and adds only fresh entries that name it as their cause and share its correlation |
| OutboxEffects.DispatchStopsAtTheFirstRaise | infrastructure/events/in_process_dispatcher.py:66-86 | the handlers up to the first that raises have saved, in order, and no other |
| OutboxEffects.SavedIs | infrastructure/repositories/memory.py:326-346 | saving a known id makes its row fresh where it stands, a new id is appended |
| OutboxEffects.RequeueIs | infrastructure/repositories/memory.py:422-438 | a requeue makes exactly the dead entries among the given ids fresh and pending, in place, and they are all in the next unlimited batch |
| OutboxEffects.RevivedAre | infrastructure/repositories/memory.py:422-438 | it returns each of them once, and nothing else |
| OutboxEffects.RegisteredHandlers | app/dependencies.py:77-85 | which event types have a handler, and which handlers save trust events |
| OutboxDrain.ProcessLowers | infrastructure/events/outbox_worker.py:90-129 | every dispatch, successful or not, lowers (R - retry) * (1 + 4R) summed over source events plus (R - retry) over the others, although its handler may save four new events |
| OutboxDrain.PassesDrain | infrastructure/events/outbox_worker.py:67-134 | for any handler outcomes, more passes than that measure leave every entry published or a dead letter, and not both |
| OutboxIdle.IdleMeansSettled | infrastructure/events/outbox_worker.py:145-148 | under every interleaving of worker, producers, requeues and waiters, when `_is_idle` answers true no dispatch is in flight, no snapshot is held and every entry is PUBLISHED or DEAD_LETTER |
| OutboxIdle.SettledMeansIdle | infrastructure/events/outbox_worker.py:57-65 | conversely, once everything is settled and the worker rests, a waiter gets its answer |
| OutboxIdle.ReachableInv | infrastructure/events/outbox_worker.py:67-148 | the invariant of the interleaved machine, covering the window after the snapshot and the one between the last retry and `mark_failed` |
| OutboxSchedule.PassIsASchedule | infrastructure/events/outbox_worker.py:67-134 | a pass that nobody interrupts is one schedule of the interleaved machine, so both models are of the same worker |
| OutboxProgress.DispatchesArePaidFor | infrastructure/events/outbox_worker.py:67-134 | under every interleaving and with any limits, the completed dispatches and the measure of what is pending together never exceed R * (1 + 4R) per event that was produced or revived, plus R for each event the dispatch in flight has saved |
| OutboxProgress.WorkerCanMove | infrastructure/events/outbox_worker.py:67-143 | while an entry is pending and no waiter holds the lock, the worker has a step, and from rest that step takes a batch |
| OutboxLineage.CausesComeFirst | domain/events/base.py:18-26 | after every run, the causation of an entry names one saved earlier, with the same correlation |
| OutboxLineage.CauselessIff | domain/events/base.py:18-26 | after every run, an entry names no cause if and only if a producer saved it |
| OutboxTotals.UnpublishedIsExact | infrastructure/repositories/memory.py:355-370 | the listing has exactly the pending entries below the retry bound, each once |
| OutboxObjects.EventContext.Leave | domain/events/context.py:36-45 | leaving a context puts back the pair that entering it found |
| OutboxObjects.MemoryOutbox.ListUnpublished | infrastructure/repositories/memory.py:355-370 | the listing, cut at the limit, with what was saved first before what was saved later |
| OutboxObjects.MemoryOutbox.Save | infrastructure/repositories/memory.py:326-346 | saving resets the row of a known id and keeps its place; the worker is notified and the queue depth follows |
| OutboxObjects.MemoryOutbox.MarkPublished | infrastructure/repositories/memory.py:440-449 | only that row changes, and the queue depth follows |
| OutboxObjects.MemoryOutbox.IncrementRetry | infrastructure/repositories/memory.py:451-459 | the same, for the retry count |
| OutboxObjects.MemoryOutbox.MarkFailed | infrastructure/repositories/memory.py:461-471 | the same, for the dead letter flag |
| OutboxObjects.MemoryOutbox.Requeue | infrastructure/repositories/memory.py:422-438 | exactly the dead letters among the given ids have their rows made fresh, all other rows stay, and the revived entries are returned in the order asked for; the worker is notified exactly if there are any |
| OutboxObjects.InProcessDispatcher.Dispatch | infrastructure/events/in_process_dispatcher.py:59-95 | handlers run in order up to the first that raises; what they saved stays saved and carries the lineage of the event; the context is restored in both cases |
| OutboxObjects.OutboxWorker.ProcessEntry | infrastructure/events/outbox_worker.py:78-129 | one entry: dispatch, then publish, or retry and perhaps bury, with all counters |
| OutboxObjects.OutboxWorker.RunOnce | infrastructure/events/outbox_worker.py:67-134 | one pass has exactly the effect of the value-level pass on rows and counters, keeps the books, restores `_pending` and the context, and returns the batch size |
| ImageAssetsResults.StorageMatchesIff | application/media/image_uploaded_handler.py:37-158 | for every interleaving of uploads, handler steps and deletions, when nothing is under way the storage holds exactly the original and thumbnail keys of live images, if and only if no entity was built with unacceptable details or into a full listing and no handler gave up a stored thumbnail without storing it again |
| ImageAssetsResults.StorageMatchesMetadata | application/media/image_uploaded_handler.py:37-158 | so it does after every run in which no entity is refused and no `mark_ready` raises |
| ImageAssetsResults.StorageAtRest | application/media/service.py:85-148 | in every run, at rest, the storage holds the keys of live images, the originals of refused uploads and the thumbnails that a handler forgot, and matches the metadata exactly when there are none of the last two |
| ImageAssetsResults.AbandonedIffRefused | application/media/service.py:91-109 | an original is orphaned exactly by an upload whose filename or content type is empty or size negative, or whose listing holds ten images when the position is read |
| ImageAssetsResults.LeakedIffGivenUp | application/media/image_uploaded_handler.py:114-153 | a thumbnail stays without an owner exactly if its handler gave it up, at its last failure or at the next claim, and never stored it again |
| ImageAssetsResults.NeverMoreThanTen | application/media/service.py:74-115 | however uploads race, a listing has at most ten images, not counting one that its own upload is withdrawing |
| ImageAssets.EntityIff | domain/listings/images.py:38-47 | the entity of an upload is refused exactly for an empty filename or content type, a negative size or a full listing |
| ImageAssetsRuns.TwoUploadsAtNine | application/media/service.py:74-109 | a concrete run: two uploads with nothing wrong pass the limit check at nine images, and the file of the second stays without an image |
| ImageAssetsRuns.InvalidDetails | application/media/service.py:88-148 | a concrete run: one upload with an empty filename, an empty content type or a negative size leaves its file |
| ImageAssetsRuns.RaisingMarkLeaks | application/media/image_uploaded_handler.py:52-153 | a concrete run: `mark_ready` raises once, two more attempts fail, and three thumbnails stay without an owner |
| ImageAssetsResults.LiveImagesHaveTheirFiles | application/media/service.py:111-115 | at every moment, a live image has all the files it refers to, unless its own upload is being withdrawn |
| ImageAssetsResults.HandlerEndsWell | application/media/image_uploaded_handler.py:39-153 | a handler that is done leaves a live image READY with three thumbnails and no error, or FAILED after three attempts; attempts never exceed three, and only a finished handler makes an image READY |
| ImageAssetsResults.HandlerTerminates | application/media/image_uploaded_handler.py:52-153 | `handle` is done within sixty of its own steps, whatever interleaves |
| ImageAssets.ReachableInv | application/media/image_uploaded_handler.py:37-158 | the invariant of the image machine: which step of which upload or handler accounts for every stored key |
| ImagePipelines.ImagePipeline.UploadImage | application/media/service.py:74-150 | under interference: refused at ten images, or with nothing changed if the validator or the storage does not take the file; the position is one more than the images present when it is read; otherwise uploaded, unscheduled or raised exactly as details, position, repository and outbox (or publisher) decide; a raised one leaves no image, and its file only for unacceptable details or a position beyond ten |
| ImagePipelines.ImagePipeline.ClaimForProcessing | infrastructure/repositories/memory.py:201-219 | granted exactly for a claimable live image, as the next attempt; a refused claim ends the call or leads to the cleanup |
| ImagePipelines.ImagePipeline.GenerateAndStore | application/media/thumbnail_service.py:33-53 | all three thumbnails are stored, or none of those it stored is left |
| ImageAssets.StoredBySize | application/media/thumbnail_service.py:33-53 | thumbnails are stored small, then medium, then large |
| ImagePipelines.ImagePipeline.Attempt | application/media/image_uploaded_handler.py:52-94 | one attempt ends the call, or leaves exactly the keys it still holds to the failure path |
| ImagePipelines.ImagePipeline.CleanupGeneratedAssets | application/media/image_uploaded_handler.py:155-158 | the original and every generated key are gone from the storage afterwards, and the call is over |
| ImagePipelines.ImagePipeline.HandleEvent | application/media/image_uploaded_handler.py:37-153 | the retry loop, with anything happening between two of its operations, terminates and leaves a live image READY with all thumbnails or FAILED after the last attempt |
| ImageClaims.OneOwnerAndBoundedAttempts | infrastructure/repositories/memory.py:201-219 | for any number of events of one image: one owner at a time, at most three claims, and the attempt counter is the number of claims |
| ImageClaims.OriginalLostIff | application/media/image_uploaded_handler.py:148-153 | while the image is there, its file is lost exactly if some handler woke up and found it ready, owned or out of attempts |
| ImageClaims.SequentialKeepsTheOriginal | infrastructure/events/outbox_worker.py:78-91 | any number of events that are handled one after the other, as the one worker does, keep the file of a live image |
| ImageClaims.OneHandlerKeepsTheOriginal | application/media/image_uploaded_handler.py:148-153 | so a single event never loses it |
| ImageClaims.TwoHandlersCanLoseTheOriginal | application/media/image_uploaded_handler.py:148-153 | two handlers that run at once can lose it: a concrete schedule |
| ImageClaims.ReadyIsFinal | infrastructure/repositories/memory.py:201-219 | whatever other events there are for an image: once a handler has finished it, it stays READY with all thumbnails until it is deleted |
| ImageMemory.MemoryMediaService.UploadImage | application/media/service.py:74-113 | the abstract sequence of the listing gets the new id at its end; refused exactly at ten images or for an empty filename; the position bound never fires |
| ImageMemory.MemoryMediaService.DeleteImage | application/media/service.py:192-218 | the sequence loses the id and the others keep their order |
| ImageMemory.MemoryMediaService.ReorderListingImages | application/media/service.py:169-190 | accepted exactly for a permutation of the present images, and then the sequence is the requested one |
| ImageMemory.MemoryListingImageRepository.CompactListing | infrastructure/repositories/memory.py:130-137 | positions become 1..n in the present order; it raises exactly beyond ten images |
| ImageMemory.MemoryListingImageRepository.StoreImage | infrastructure/repositories/memory.py:139-161 | only the listing of the image is renumbered; raises exactly at the eleventh image |
| ImageMemory.MemoryListingImageRepository.DeleteById | infrastructure/repositories/memory.py:255-274 | removes exactly that image and closes the gap; raises exactly if more than ten are left |
| ImageMemory.MemoryListingImageRepository.ReorderForListing | infrastructure/repositories/memory.py:279-301 | which request is refused for which reason, exactly; otherwise positions follow the request and nothing else changes |
| ImageMemory.MemoryListingImageRepository.ClaimForProcessing | infrastructure/repositories/memory.py:201-219 | granted exactly for a stored image that is neither READY nor PROCESSING and has attempts left; then it is PROCESSING with one attempt more, and nothing else changes |
| ImageMemory.MemoryListingImageRepository.MarkReady | infrastructure/repositories/memory.py:221-239 | the status coherence decides what a stored image becomes; a deleted one stays deleted |
| ImageMemory.MemoryListingImageRepository.MarkFailed | infrastructure/repositories/memory.py:241-253 | a stored image becomes FAILED with an error; a deleted one stays deleted |
| ImageSqlite.SQLiteListingImageRepository.ClaimForProcessing | infrastructure/sqlite/listing_image_repository.py:183-222 | the checks look at the hydrated entity and the UPDATE writes the raw row; read back, the row is what the memory repository would have stored |
| ImageSqlite.SQLiteListingImageRepository.MarkReady | infrastructure/sqlite/listing_image_repository.py:224-253 | the same agreement for a finished image; a row that cannot be read back is told apart from a missing one |
| ImageSqlite.SQLiteListingImageRepository.MarkFailed | infrastructure/sqlite/listing_image_repository.py:255-276 | the same for a failed one |
| ImageSqlite.SqliteMediaService.UploadImage | application/media/service.py:74-113 | the same abstract step as over the memory repository |
| ImageSqlite.SqliteMediaService.DeleteImage | application/media/service.py:192-218 | the same |
| ImageSqlite.SqliteMediaService.ReorderListingImages | application/media/service.py:169-190 | the same |
| ImageSqlite.SQLiteListingImageRepository.UpdatePositions | infrastructure/sqlite/listing_image_repository.py:305-314 | a loop of UPDATE statements keeps the unique index after every statement and succeeds exactly if no statement would violate it |
| ImageSqlite.SQLiteListingImageRepository.CompactListingPositions | infrastructure/sqlite/listing_image_repository.py:53-59 | ascending compaction always succeeds and ends at 1..n in the old order, whatever the gaps |
| ImageSqlite.SQLiteListingImageRepository.StoreImage | infrastructure/sqlite/listing_image_repository.py:61-110 | the insert is refused exactly for a known id or a taken position |
| ImageSqlite.SQLiteListingImageRepository.DeleteById | infrastructure/sqlite/listing_image_repository.py:161-178 | removes exactly that row and closes the gap |
| ImageSqlite.SQLiteListingImageRepository.ReorderForListing | infrastructure/sqlite/listing_image_repository.py:289-322 | which request is refused for which reason, exactly; a violated index undoes everything; an accepted request of more than ten ids is stored and then raises; otherwise the listing is returned in the requested order |
| ImageSqlite.HydratesIff | infrastructure/sqlite/listing_image_repository.py:122-131 | a listing at positions 1..n can be read back exactly if n is at most ten |
| ImageSqlite.ReverseLongListing | infrastructure/sqlite/listing_image_repository.py:289-322 | a listing of 11 to 100 images, which only the migration can produce, is turned around although the call raises |
| ImageSqlite.ReorderSucceedsIff | infrastructure/sqlite/listing_image_repository.py:303-317 | both phases respect the index for every listing of up to 100 images, and for a longer one exactly when the request leaves in place what the temporary range would overwrite |
| ImageStatements.CompactionNeverClashes | infrastructure/sqlite/listing_image_repository.py:53-59 | no statement of the compaction violates the index |
| ImageStatements.SecondPhaseNeverClashes | infrastructure/sqlite/listing_image_repository.py:310-314 | no statement of the second phase does |
| ImageMigration.Database.NormalizeListingImagePositions | infrastructure/sqlite/database.py:89-115 | the grouping loop numbers every listing 1..n in sorted order, keeps every strict order there was, and makes the unique index creatable; with the index in place it fails exactly when a later row sits on an earlier row's target |
| ImageMigration.RestartIsSteady | infrastructure/sqlite/database.py:83-87 | on a restart with the index in place the loop gets through whenever stored positions are at least one |
| ImageMigration.Database.MigrateListingImagesSchema | infrastructure/sqlite/database.py:83-87 | after one successful migration the index exists, positions are at least one and every later start gets through |
| ImageMigration.StartBelowOne | infrastructure/sqlite/database.py:83-87 | with a position below one, which neither the program nor the migration writes, a start can fail |
| ImageMigration.RankStep | infrastructure/sqlite/database.py:103-110 | the counter of the loop is the number of rows of the listing so far |
| Images.ProcessingIs | infrastructure/repositories/memory.py:201-253 | which images can be claimed, and what a claim, a finish and a failure make of them |
| Images.SettledIs | domain/listings/images.py:52-57 | the status follows the thumbnails for PENDING and READY images alone, and a READY image has no error |
| Images.ConstructIsStable | domain/listings/images.py:38-57 | the checks and the status coherence are idempotent, change nothing but status and error, and a READY result has all thumbnails and no error |
| TrustStore.ProfileIsFoldOfItsEvents | application/trust/handlers.py:67-75 | for every user, after every run, folding that user's outbox entries in save order gives exactly the stored counters, level and score, and the score changes form a chain from 100 to the stored score |
| TrustPipeline.ProfilesFollowTheOutbox | application/trust/handlers.py:67-75 | the same behind the real outbox: over every run of deliveries that raise half-way, retries, redeliveries, dead letters and requeues, while the counters of the outbox balance, as long as no save raises after its profile was stored |
| TrustPipeline.FoldsThroughoutIff | application/trust/handlers.py:67-75 | with saves that may raise anywhere between a stored profile and the last of its events: the fold holds at every moment of a run if and only if none does |
| TrustCounting.LostAnnouncement | application/trust/handlers.py:72-75 | a concrete run: the profile is stored, the save of its first event raises, and the fold is broken |
| TrustCounting.TimesCounted | infrastructure/events/outbox_worker.py:90-129 | how often each change that an event asks for is made: once if its entry is published, and once more by every dispatch that got past it and then raised |
| TrustCounting.CountedOnceIff | application/trust/handlers.py:21-65 | a published event has counted for a participant exactly once if and only if no dispatch of it raised after that participant was recorded |
| TrustCounting.CountersAddUp | application/trust/handlers.py:21-75 | every counter of every profile is what the published events ask for, plus what raising dispatches had already recorded, plus what was recorded outside dispatches |
| TrustCounting.CountersAreExactIff | application/trust/handlers.py:21-75 | so a counter agrees with the published events if and only if no dispatch raised after counting in it |
| TrustCounting.CountedTwice | application/trust/handlers.py:21-32 | a concrete run: a sale whose first dispatch raises between its two participants is published with two sales for the seller |
| TrustStore.DeliveryIsBounded | application/trust/handlers.py:21-65 | one delivery changes at most two different profiles and saves at most four events |
| TrustEffects.TransactionCounts | application/trust/handlers.py:21-36 | for every user and every combination of participants: a sale for the seller, a purchase for a buyer who is somebody else, a trade for the participant where neither is named, and nothing for anybody else |
| TrustEffects.ReviewCounts | application/trust/handlers.py:38-49 | the same for reviews: given by the author, received by a recipient who is somebody else |
| TrustEffects.DisputeCounts | application/trust/handlers.py:51-65 | the same for disputes: won by the winner, lost by a loser who is somebody else, or as the outcome says for the user named alone; each has one open dispute less |
| TrustEffects.EvidenceIsWorth | domain/trust/score.py:24-43 | what each piece of evidence adds to or takes from the unclamped score, in the points of the policy, with the caps at 20 transactions and 40 reviews |
| TrustEffects.LevelIsWorth | domain/trust/policies.py:10-30 | the points of the verification levels |
| TrustEffects.AgeIsCompletedPeriods | domain/trust/score.py:24-43 | the age is the number of completed periods of 30 days |
| TrustEffects.AgeIsWorth | domain/trust/score.py:24-43 | each is worth 2 points, up to 60 of them |
| TrustEffects.ScoreIsClamped | domain/trust/score.py:24-43 | the stored score is the unclamped one, or the bound of 0..1000 that it exceeds |
| TrustEffects.FirstScore | domain/trust/policies.py:10-30 | a new profile scores 100 |
| TrustEffects.LostAtOnce | domain/trust/score.py:24-43 | a new profile that loses a dispute at once scores 25 |
| TrustEffects.RefusedIff | domain/trust/aggregate.py:50-63 | the aggregate raises exactly for a level that is not higher and for a revocation of nothing |
| TrustEffects.PerformIs | domain/trust/aggregate.py:50-119 | which counter each method moves, that nothing else moves but score and times, and that the score is that of the new counters |
| TrustEffects.AnnouncedIs | domain/trust/aggregate.py:50-119 | the events a method returns: the evidence with what it carries, then the score change if there is one |
| TrustLaws.ScoreInRange | domain/trust/score.py:24-43 | every stored score is within 0..1000 |
| TrustLaws.UpperClampNeedsWonDispute | domain/trust/policies.py:10-30 | only a won dispute can push the raw score above 1000, and without one it is 1000 exactly when every cap is reached and no dispute counts |
| TrustLaws.FavourableRunNeverFalls | domain/trust/aggregate.py:112-119 | over a run with non-decreasing times and no opened or lost dispute and no revocation, the score never falls |
| TrustLaws.OpenDisputesAreMaxSuffix | domain/trust/aggregate.py:78-90 | the open disputes equal the maximum over all suffixes of the history of opened minus resolved |
| TrustOrder.OnlyDisputesAndVerificationsAreOrdered | domain/trust/aggregate.py:50-101 | from any profile, with equal timestamps, histories with the same disputes and verifications in order and the same transactions and reviews in any order and interleaving give the same aggregate |
| TrustObjects.TrustAggregate.RefreshScore | domain/trust/aggregate.py:112-119 | score, activity times and the announced change, on the object |
| TrustObjects.TrustAggregate.RecordTransaction | domain/trust/aggregate.py:65-76 | the object ends as the value-level step says, and returns its events |
| TrustObjects.TrustAggregate.RecordDispute | domain/trust/aggregate.py:78-90 | the same |
| TrustObjects.TrustAggregate.RecordReview | domain/trust/aggregate.py:92-101 | the same |
| TrustObjects.TrustAggregate.GrantVerification | domain/trust/aggregate.py:50-55 | the same; refused, with the object unchanged, unless the level is higher |
| TrustObjects.TrustAggregate.RevokeVerification | domain/trust/aggregate.py:57-63 | the same; refused unless something is granted |
| TrustObjects.TrustEventHandlers.UpdateProfile | application/trust/handlers.py:67-75 | load or create, perform, save, publish; nothing is stored when the aggregate raises |
| TrustObjects.TrustEventHandlers.TransactionCompleted | application/trust/handlers.py:21-36 | each participant once, or the only one named as a trade |
| TrustObjects.TrustEventHandlers.ReviewSubmitted | application/trust/handlers.py:38-49 | author and recipient, a self-review counted once |
| TrustObjects.TrustEventHandlers.DisputeResolved | application/trust/handlers.py:51-65 | winner and loser, or the subject with the given outcome |
| ListingIndex.IndexAlwaysExact | infrastructure/sqlite/listing_repository.py:17-78 | after every run of additions and saves the index has exactly one, current, row per PUBLISHED listing and none for any other, and both backends store the same listings |
| ListingIndex.SQLiteListingRepository.AddListing | infrastructure/sqlite/listing_repository.py:54-78 | the row and its index entry together; a known id changes nothing |
| ListingIndex.SQLiteListingRepository.SaveListing | infrastructure/sqlite/listing_repository.py:102-126 | the same for a save; an unknown id changes nothing |
| ListingIndex.SQLiteListingRepository.BootstrapListingSearchIndex | infrastructure/sqlite/database.py:117-153 | from an index that merely lacks rows the start-up statement makes an exact one |
| Search.SearchListings | domain/search/service.py:13-54 | the guarded loop and the sort are a filter and a stable newest-first sort; an inverted price range is refused |
| Search.ScanIsOrdered | domain/search/service.py:51-54 | the answer is newest first, has exactly the matches, and keeps the order of listings made at the same time |
| Search.ScanIsStable | domain/search/service.py:51-54 | of two answers made at the same time, the one that came first in the input comes first |
| Search.MatchesIff | domain/search/service.py:20-49 | what a listing needs to be found: PUBLISHED, the keyword in title or description in any case, every filter, both price bounds included |
| Search.SameInLowerCase | infrastructure/sqlite/search_repository.py:48-50 | texts that SQLite lowers to the same differ at most in the case of ASCII letters |
| Search.WhereClauses | infrastructure/sqlite/search_repository.py:25-58 | the clauses that are built up hold of a row exactly when the filters select it |
| SearchAgreement.SearchByIndex | app/routes/search.py:53-76 | the SQLite branch of the route: the stored listings of one page of the selected index rows, in an order that the statement allows |
| SearchAgreement.SelectedIff | infrastructure/sqlite/search_repository.py:25-58 | which index rows the statement selects, filter by filter |
| SearchAgreement.RankedFirst | infrastructure/sqlite/search_repository.py:63-66 | with a keyword, the statement orders by rank and, at equal rank, newest second first |
| SearchAgreement.SearchByScan | app/routes/search.py:78-106 | the memory branch of the route, with its slice |
| SearchAgreement.SearchPathsAgree | app/routes/search.py:53-103 | after every run, a keyword-free search without paging finds the same listings over both backends, each once, whatever `published_only` says (prices exact, locations ASCII) |
| SearchAgreement.PagesAgreeIff | infrastructure/sqlite/search_repository.py:60-73 | after every run, for such a search: every page is the same over both backends, however SQLite orders ties, if and only if no two matching listings were made in the same second |
| SearchAgreement.PublishedOnlyIsIrrelevant | infrastructure/sqlite/search_repository.py:34-36 | the filter on the status column selects nothing away |
| Timestamps.TextSortsAsTime | infrastructure/sqlite/outbox_repository.py:159-166 | timestamp text with one offset, so in particular UTC text, sorts exactly as the instants do, with or without microseconds |
| Timestamps.CalendarIs | infrastructure/repositories/memory.py:416-417 | month lengths, leap years and 146097 days in 400 years: the calendar that the instants count in |
| Timestamps.FieldsOrderInstants | infrastructure/repositories/memory.py:416-417 | the order of the calendar fields is the order of the instants |
| TimestampParsing.TextParses | domain/events/serialization.py:56-60 | reading the text of a moment gives the moment and its offset back |
| TimestampBounds.BoundsCompareAlikeIff | infrastructure/sqlite/outbox_repository.py:159-166 | a bound is compared by the text as by the time, for every stored time, exactly when it is in UTC, or in the west at the very last local time |
| Serialization.ToUtcKeepsTheInstant | domain/events/base.py:37-40 | normalising to UTC names the same instant |
| Serialization.BuildIsBuilt | domain/events/base.py:18-40 | construction checks, normalises and fills in open lineage, and never replaces given lineage |
| Serialization.SerializeEvent | domain/events/serialization.py:27-47 | the loop over the fields stores exactly the event's own payload beside the common fields |
| Serialization.RoundTripIff | domain/events/serialization.py:27-70 | reading an event back gives the event exactly when its class is registered and the reading context adds no lineage; so always under an empty context |
| OutboxQuery.QueriesDifferIff | infrastructure/sqlite/outbox_repository.py:139-177 | for UTC bounds and flags that are never both set, the two queries differ exactly on an entry without correlation that is asked for by the correlation of the reading context and matches otherwise |
| OutboxQuery.SelectsAlike | infrastructure/sqlite/outbox_repository.py:139-177 | so they select the same entries unless reading adds lineage |
| OutboxQuery.StatesAgreeIff | domain/events/outbox.py:29-35 | the two state filters differ exactly on an entry that is both published and dead, asked for as PUBLISHED |
| OutboxQuery.ContextCanAddAMatch | infrastructure/repositories/memory.py:400-420 | inside another event's context the in-memory query can match an entry without correlation that SQLite does not |
| OutboxQuery.WhereClauses | infrastructure/sqlite/outbox_repository.py:146-166 | the clauses hold of a row exactly when the query selects it |
| OutboxQuery.QueryMemory | infrastructure/repositories/memory.py:400-420 | hydrate in the reading context, filter in save order, cut at the limit |
| OutboxQuery.AnswerIff | infrastructure/repositories/memory.py:408-419 | what an entry needs to be answered, filter by filter, both bounds included |
| OutboxQuery.AnswersInSaveOrder | infrastructure/repositories/memory.py:408-419 | answers come in save order |
| OutboxQuery.QuerySqlite | infrastructure/sqlite/outbox_repository.py:139-177 | exactly the entries whose rows satisfy the query, oldest first and by id among equal times, cut at the limit; for UTC bounds these are the entries of the in-memory answer |

## Left out

- OutboxDrain.PassesDrain: one worker, a fixed retry bound of at least one, new event ids and one positive limit are
  assumed; handler outcomes may depend on the whole outbox, but not on anything else. `OutboxProgress` has varying
  limits and interruptions.
- OutboxBooks.BooksAlwaysBalance: writes of the outbox itself do not fail, so the `RuntimeError` branches for a
  missing row are not reached.
- ImageAssetsResults.StorageMatchesMetadata: `delete_image` is one step, storage operations are atomic and do not
  fail when they delete, and repository calls other than `store`, `mark_ready` and the scheduling do not raise.
- Images.ConstructIsStable: the attempt count is a natural number, since no operation lowers it.
- ImageAssetsResults.HandlerTerminates: the delays between attempts take no time.
- ImagePipelines.ImagePipeline.UploadImage: a service with neither an outbox nor a publisher, which schedules
  nothing, is not modelled.
- MarketplaceServices.PathsBisimulate: the in-memory services have no failing writes, so agreement is about
  fault-free runs.
- MarketplaceServicePath.InMemoryMarketplace.CancelReservation: stored entities are values in a map, so aliasing of
  a returned entity with the stored one is not captured.
- SearchAgreement.SearchByIndex: the full-text match, its rank and the second that `datetime` makes of a time are
  parameters.
- SearchAgreement.SearchPathsAgree: keywords and non-ASCII locations are excluded, because the library decides about
  them; `PagesAgreeIff` has the pages.
- TimestampParsing.TextParses: only the shapes that `isoformat` writes are parsed, and offsets are whole minutes.
- Serialization.RoundTripIff: payloads are maps of strings that do not use the common field names, and the JSON text
  between is taken to be lossless.
- HTTP routes other than the two search branches, schemas, middleware and dependency wiring: plumbing.
- Authentication, credentials and profile editing: thin wrappers and easy members.
- Image decoding, temporary files and the filesystem: the image processor and the storage are oracles over a set of
  keys.
- SQL text, FTS5 matching and bm25 ranking: library semantics.
- The dispatcher's own queue and thread: the worker dispatches synchronously.
- Several outbox workers and duplicate ids within one requeue request: outside the design the counters rest on.
- The LICOS kernel: not part of this model; the event log is an append-only list.
- Suspending, deleting and editing users and listings, declining, expiring and completing reservations:
  single-entity transitions that the workflow does not use.
- Update times of listings, reservations and users, and the texts of errors and events: nothing depends on them.
